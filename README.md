# tautulli-yamtrack-exporter, modelled in Dafny

The exporter pulls a user's playback history from a Tautulli server,
category by category (movies, then episodes), one page of 100 records at a
time. Unless it is a dry run, it writes one CSV file per non-empty category,
and one global file when anything was gathered at all. The CSV format is the one Yamtrack imports. Each file
holds one row per distinct rating key. That row is built from the most
recent record for the key, and the rows are ordered newest first.

This project models the decision logic of `main.go` over plain values:

- `Coerce`: `toString`, which renders the loosely typed JSON fields as text. It also covers the zero/non-zero split of `formatISO8601`. `strconv.Itoa` is written out together with its inverse.
- `History`: the history record, and its effective timestamp (`stopped`, or `date` when `stopped` is zero).
- `Dedup`: the `dedupedMap` loop of `writeToCSV`. It is proved against a fold and against an independent "first maximum per key" definition.
- `Recency`: gathering the map's values, then the in-place sort, newest first. The sort is an insertion sort on an `array`.
- `Rows`: the 13-column row built for each record, and the header.
- `Export`: `writeToCSV` as a whole, minus the file system.
- `Paginator`: the per-category pagination loop. The server is replaced by a page source, a function from start offset to response.
- `Pipeline`: the category loop of `main`, the export gating around it, and the global file.

Two facts about the code shape the model:

- A dry run is decided before a zero total is checked (`main.go:150-156`). A dry run therefore ends with `DryRun(total)` even when the total is zero.
- Dates are rendered in the machine's local time zone (`main.go:74`), although the comment at `main.go:73` shows the offset `+00:00`. The renderer is therefore a parameter of the model (`DateRenderer`). The model relies only on it producing non-empty text.

## Model

| member | source | states |
|---|---|---|
| Coerce.ToDisplayString | main.go:53-67 | nil gives "", a string is returned unchanged, an int is printed in decimal and reads back as itself, a float64 is printed as its value truncated toward zero, anything else keeps its `%v` text |
| Coerce.TruncateTowardZero | main.go:60-61 | Go's `int(val)` on a float64: the integer nearest to zero, within one of the value, for both signs |
| Coerce.IntToDecimal | main.go:61-63 | `strconv.Itoa` yields an optional minus sign followed by canonical digits (no leading zero, no "-0") |
| Coerce.NatToDecimal | main.go:61-63 | the digits of a natural number are canonical and are "0" exactly for zero |
| Coerce.NatToDecimalRoundTrip | main.go:61-63 | reading back the digits of a natural number gives the number |
| Coerce.IntToDecimalRoundTrip | main.go:61-63 | reading back `strconv.Itoa(i)` gives `i`, so distinct integers print differently |
| Coerce.FormatIso8601 | main.go:69-75 | the result is empty exactly when the timestamp is zero; any other timestamp gives the rendered date |
| Dedup.DeduplicatedIsFirstMax | main.go:194-209 | the deduplicated map has exactly the rating keys of the input, stores each record under its own key, and keeps for every key a record of maximum effective timestamp, the first such in input order |
| Dedup.KeysOfAppend | main.go:195-207 | the keys of a sequence grown by one record are the old keys plus that record's key |
| Dedup.FirstMaxStays | main.go:206 | a record with another key, or one that is not strictly more recent, leaves the kept record the first maximum |
| Dedup.FirstMaxMoves | main.go:206-207 | a record with a new key, or one strictly more recent than the kept one, becomes the first maximum |
| Dedup.FirstMaxUnique | main.go:196-208 | the first-maximum definition picks at most one record per key |
| Dedup.DeduplicatedCharacterised | main.go:194-209 | conversely, every map with the input's keys that keeps a first maximum for each key is the deduplicated map |
| Dedup.PermutationOfValues | main.go:211-214 | a sequence holding the values of a map keyed by rating key holds only those values and covers exactly its keys |
| Dedup.DedupeOfValues | main.go:194-214 | deduplicating any ordering of the values of such a map gives the map back |
| Dedup.DedupeOfPermutation | main.go:194-225 | deduplicating the sorted output again changes nothing (dedup then sort is idempotent) |
| Dedup.Dedupe | main.go:194-209 | the loop that fills `dedupedMap` computes the deduplicated map |
| Recency.CollectValues | main.go:211-214 | the `range dedupedMap` loop, in any key order, gathers each value of the map exactly once |
| Recency.SwapDown | main.go:215 | one exchange of neighbours permutes the array |
| Recency.SortByRecency | main.go:215-225 | the in-place sort leaves a permutation of the array that is non-increasing by effective timestamp |
| Recency.SortedValues | main.go:211-225 | the sorted slice is a permutation of the map's values, newest first, one per key |
| Rows.Normalise | main.go:253-280 | the row has the header's 13 columns, with fixed text in seven of them and the media type copied. An episode is titled by its show when that title is known, else by its own title, and its season and episode columns hold the coerced indexes (an int or float64 index reads back as that integer, truncated toward zero). Any other type keeps its title and leaves season and episode empty. The start and end dates come from `started` and `stopped` and are empty exactly when those are zero |
| Rows.HeaderColumns | main.go:237-251 | each named column position sits under the header text it is named after |
| Export.RowsOf | main.go:253-281 | one row per record, in the records' order |
| Export.BuildRows | main.go:253-281 | the row-writing loop produces the rows of the sorted records in order |
| Export.WriteToCsv | main.go:189-284 | nothing is written exactly when the collection is empty. Otherwise the header is followed by the rows of a newest-first permutation of the deduplicated records, one row per distinct rating key |
| Paginator.Decide | main.go:139-173 | a page is followed by another exactly when the request succeeded, this is not a dry run, the total is non-zero, the page is full and the records gathered are still below the total. Otherwise the stop reason follows the code's order: a transport error is `FetchFailed`, then a dry run is `DryRun(total)`, then a zero total is `NoRecords`, and any other stop is `Exhausted` |
| Paginator.FetchCategory | main.go:115-174 | the loop requests offsets 0, 100, 200, ... Every page but the last decides to continue, and the last decides to stop. The category holds the items of every page fetched, the last one only when it was appended. The global history grows by exactly the category. At most `max(1, ceil(bound / 100))` requests are made |
| Paginator.FetchOutcomeUnique | main.go:139-173 | the page source determines the number of requests, the stop reason and the records gathered |
| Paginator.DryRunFetchesOnce | main.go:139-153 | a dry run makes one request and gathers nothing. It stops with `FetchFailed` when that request fails, and otherwise with `DryRun` of the reported total |
| Paginator.ZeroTotalFetchesOnce | main.go:154-156 | a zero total on the first page ends the category at once, with nothing gathered |
| Paginator.FullThenShortPage | main.go:164-173 | with a total of 150, a full page and then a short page make two requests and gather both pages in order |
| Paginator.FailureKeepsEarlierPages | main.go:139-142 | a failed second request ends the category without retry, and the first page's records are kept |
| Pipeline.ProcessCategory | main.go:115-180 | one category is fetched and added to the global history. A dry run gathers nothing. A file is written exactly when this is not a dry run and the category is non-empty, and it holds that category's export |
| Pipeline.FilesStep | main.go:176-180 | storing a category keeps every earlier category file matching its records, and adds that category's file when one is written |
| Pipeline.ConcatenationFrame | main.go:165 | filling in a category not fetched yet changes neither the concatenation nor the scopes of the earlier ones |
| Pipeline.FetchedStep | main.go:115-174 | storing a category keeps the earlier categories as fetched and adds it |
| Pipeline.ConcatenationStep | main.go:165-176 | storing a category extends the global history by its records, and the written scopes by it when it is non-empty |
| Pipeline.ConcatenationOfAll | main.go:109-166 | the concatenation over all categories is the movies followed by the episodes |
| Pipeline.GlobalFileStep | main.go:183-184 | appending the global file adds the global scope and keeps every file matching its records |
| Pipeline.ExportCategories | main.go:109-181 | every category is fetched, and the global history is the categories' records in fetch order. A dry run gathers and writes nothing. Otherwise exactly the non-empty categories are written, in order, each holding its own export |
| Pipeline.Run | main.go:109-186 | as ExportCategories, with the global history equal to movies followed by episodes. Then, unless this is a dry run, the global file is written exactly when the global history is non-empty, and it holds the export of that history |

## Left out

- HTTP requests, URL and query building, reading the body and JSON decoding (`main.go:121-147`): replaced by the page source. A body that does not decode shows up as a page with no items and a zero total.
- The rendering of non-zero timestamps (`main.go:74`): `time.Unix` and the local time zone become the `DateRenderer` parameter. The model assumes only that it never returns empty text.
- Flag parsing, the API-key and username check with `os.Exit`, and the parsing of `--start`/`--end` (`main.go:83-107`): command-line plumbing. The `after`/`before` filters only shape the request and are part of the page source.
- Writing raw pages to `tmp/` and `MkdirAll` (`main.go:158-162`): file-system side effects that do not affect what is exported.
- CSV quoting and CRLF line endings (`main.go:233-235`): a file is modelled as its header and rows of strings.
- Failure of `os.Create` (`main.go:227-230`): file-system behaviour; the model always writes the table.
- `sessionID`, file names, `createdFiles`, `printSummary`, `logVerbose` and progress output (`main.go:43-51, 97, 113-116, 168, 178, 282-308`): environment-dependent or output only. A written file is identified by its scope (a category or global) instead of its name.
- float64 precision, NaN, infinities, and float-to-int conversion out of range: the model uses exact reals. The `%v` text of other values is taken as given (`Loose.Other`).
- 64-bit widths of timestamps and of `int`: integers are unbounded. Timestamps are only compared. The one addition, `startOffset += pageSize` (`main.go:173`), could wrap only after more than 9·10^16 pages.
- Paginator.FetchCategory: requires a bound on every total the server reports. The Go loop never stops if the server keeps reporting a total above what was gathered while sending full pages; the bound excludes that server behaviour.
- Pipeline.Run: requires the same bound for every category, for the same reason.
- Pipeline.ExportCategories: a category never fetched starts as an empty sequence, as a missing key reads in a Go map. Within the loop no category is read before it is fetched.
- Recency.SortByRecency: Go's `sort.Slice` is not stable and its order among equal timestamps is unspecified. The insertion sort is one admissible order, and its contract promises only what every order gives: a permutation, newest first.
- Recency.CollectValues: Go's map iteration order is unspecified. The model picks any remaining key at each step, and the contract does not fix the order.
