/**
 * The mapping of one history record to one 13-column row of the tracker's
 * import format (the body of `writeToCSV`'s output loop).
 */
module Rows {
  import opened Coerce
  import opened History

  type Row = seq<string>

  /** The fixed attribution written into every row's `notes` column. */
  const Notes := "Exported from Tautulli via github.com/dbeg/tautulli-yamtrack-exporter"

  /** The header row, in column order. */
  const Header: Row := [
    "media_id", "source", "media_type", "title", "image", "season_number",
    "episode_number", "score", "status", "notes", "start_date", "end_date", "progress"]

  /** Column positions, named after the header text they sit under. */
  const MediaIdColumn := 0
  const SourceColumn := 1
  const MediaTypeColumn := 2
  const TitleColumn := 3
  const ImageColumn := 4
  const SeasonColumn := 5
  const EpisodeColumn := 6
  const ScoreColumn := 7
  const StatusColumn := 8
  const NotesColumn := 9
  const StartDateColumn := 10
  const EndDateColumn := 11
  const ProgressColumn := 12

  /** Title shown for a record: an episode is listed under its show. */
  function DisplayTitle(x: HistoryItem): string {
    if x.mediaType == "episode" && x.grandparentTitle != "" then x.grandparentTitle else x.title
  }

  /** One output row. Seven columns are the same for every record; the
      media type is copied; an episode is titled by its show when the show
      title is known and fills its season and episode columns from the
      coerced indexes (an integer or a float index reads back as that
      integer, truncated), while any other type keeps its own title and
      leaves both empty; the start and end dates come from `started` and
      `stopped` (not from the effective timestamp) and are empty exactly
      when the timestamp is zero. */
  function Normalise(x: HistoryItem, render: DateRenderer): (r: Row)
    ensures |r| == |Header|
    ensures && r[MediaIdColumn] == "" && r[SourceColumn] == "tmdb" && r[ImageColumn] == ""
            && r[ScoreColumn] == "" && r[StatusColumn] == "Completed" && r[NotesColumn] == Notes
            && r[ProgressColumn] == "100"
    ensures r[MediaTypeColumn] == x.mediaType
    ensures x.mediaType == "episode" ==>
              && r[TitleColumn] == (if x.grandparentTitle != "" then x.grandparentTitle else x.title)
              && r[SeasonColumn] == ToDisplayString(x.parentMediaIndex)
              && r[EpisodeColumn] == ToDisplayString(x.mediaIndex)
              && (x.parentMediaIndex.Int? ==> DecimalValue(r[SeasonColumn]) == x.parentMediaIndex.i)
              && (x.parentMediaIndex.Float? ==> DecimalValue(r[SeasonColumn]) == TruncateTowardZero(x.parentMediaIndex.r))
              && (x.mediaIndex.Int? ==> DecimalValue(r[EpisodeColumn]) == x.mediaIndex.i)
              && (x.mediaIndex.Float? ==> DecimalValue(r[EpisodeColumn]) == TruncateTowardZero(x.mediaIndex.r))
    ensures x.mediaType != "episode" ==> r[TitleColumn] == x.title && r[SeasonColumn] == "" && r[EpisodeColumn] == ""
    ensures r[StartDateColumn] == "" <==> x.started == 0
    ensures r[EndDateColumn] == "" <==> x.stopped == 0
    ensures x.started != 0 ==> r[StartDateColumn] == render(x.started)
    ensures x.stopped != 0 ==> r[EndDateColumn] == render(x.stopped)
  {
    var episode := x.mediaType == "episode";
    [ "",
      "tmdb",
      x.mediaType,
      DisplayTitle(x),
      "",
      if episode then ToDisplayString(x.parentMediaIndex) else "",
      if episode then ToDisplayString(x.mediaIndex) else "",
      "",
      "Completed",
      Notes,
      FormatIso8601(x.started, render),
      FormatIso8601(x.stopped, render),
      "100" ]
  }

  /** Each named column sits under the header text it is named after. */
  lemma HeaderColumns()
    ensures Header[MediaIdColumn] == "media_id"
    ensures Header[SourceColumn] == "source"
    ensures Header[MediaTypeColumn] == "media_type"
    ensures Header[TitleColumn] == "title"
    ensures Header[ImageColumn] == "image"
    ensures Header[SeasonColumn] == "season_number"
    ensures Header[EpisodeColumn] == "episode_number"
    ensures Header[ScoreColumn] == "score"
    ensures Header[StatusColumn] == "status"
    ensures Header[NotesColumn] == "notes"
    ensures Header[StartDateColumn] == "start_date"
    ensures Header[EndDateColumn] == "end_date"
    ensures Header[ProgressColumn] == "progress"
  {
  }
}
