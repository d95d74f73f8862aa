/**
 * `writeToCSV`: dedup, sort newest first, and turn each kept record into a
 * row under the fixed header. The file itself is reduced to its header and
 * rows; CSV quoting and line endings are not modelled.
 */
module Export {
  import opened Coerce
  import opened History
  import opened Dedup
  import opened Recency
  import opened Rows

  datatype Option<T> = None | Some(value: T)

  /** The contents of one written CSV file. */
  datatype CsvTable = CsvTable(header: Row, rows: seq<Row>)

  /** The rows written for records taken in the given order. */
  function RowsOf(order: seq<HistoryItem>, render: DateRenderer): (rows: seq<Row>)
    ensures |rows| == |order|
    ensures forall i :: 0 <= i < |order| ==> rows[i] == Normalise(order[i], render)
  {
    seq(|order|, i requires 0 <= i < |order| => Normalise(order[i], render))
  }

  /** `table` is what `writeToCSV` writes for `items`: the header, then one
      row per distinct rating key, built from the record dedup keeps, newest
      first. */
  ghost predicate IsExportOf(table: CsvTable, items: seq<HistoryItem>, render: DateRenderer) {
    && table.header == Header
    && exists order :: IsRecencyOrder(order, Deduplicated(items)) && table.rows == RowsOf(order, render)
  }

  /** `writeToCSV`: nothing is written for an empty collection; otherwise the
      table of the deduplicated records, newest first. */
  method WriteToCsv(items: seq<HistoryItem>, render: DateRenderer) returns (file: Option<CsvTable>)
    ensures file.None? <==> items == []
    ensures file.Some? ==> IsExportOf(file.value, items, render)
    ensures file.Some? ==> |file.value.rows| == |KeysOf(items)|
  {
    if |items| == 0 {
      return None;
    }
    var deduped := Dedupe(items);
    DeduplicatedIsFirstMax(items);
    var order := SortedValues(deduped);
    var rows := BuildRows(order, render);
    file := Some(CsvTable(Header, rows));
  }

  /** The `range sortedItems` loop that writes one row per record. */
  method BuildRows(order: seq<HistoryItem>, render: DateRenderer) returns (rows: seq<Row>)
    ensures rows == RowsOf(order, render)
  {
    rows := [];
    for i := 0 to |order|
      invariant rows == RowsOf(order[..i], render)
    {
      rows := rows + [Normalise(order[i], render)];
    }
    assert order[..|order|] == order;
  }
}
