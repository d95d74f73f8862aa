/**
 * The body of `main` after flag parsing: fetch every category in turn, then
 * export each non-empty category and the global history, unless this is a
 * dry run.
 */
module Pipeline {
  import opened Coerce
  import opened History
  import opened Export
  import opened Paginator

  /** The categories fetched; `Name` is the `media_type` the API is asked
      for and the suffix of the category's file name. */
  datatype MediaType = Movie | Episode {
    function Name(): string {
      match this
      case Movie => "movie"
      case Episode => "episode"
    }
  }

  /** The categories, in the order they are fetched. */
  const MediaTypes: seq<MediaType> := [Movie, Episode]

  /** What a written file covers: one category, or all of them ("global"). */
  datatype Scope = Category(mediaType: MediaType) | GlobalScope

  /** One written file: its scope and its contents. */
  datatype ExportFile = ExportFile(scope: Scope, table: CsvTable)

  /** The records of the first `n` categories, concatenated in fetch order. */
  function Concatenation(categorized: map<MediaType, seq<HistoryItem>>, n: nat): seq<HistoryItem>
    requires n <= |MediaTypes|
    requires forall c :: c in MediaTypes ==> c in categorized
  {
    if n == 0 then [] else Concatenation(categorized, n - 1) + categorized[MediaTypes[n - 1]]
  }

  /** The scopes written for the first `n` categories: those that gathered records. */
  function CategoryScopes(categorized: map<MediaType, seq<HistoryItem>>, n: nat): seq<Scope>
    requires n <= |MediaTypes|
    requires forall c :: c in MediaTypes ==> c in categorized
  {
    if n == 0 then []
    else CategoryScopes(categorized, n - 1) +
         (if |categorized[MediaTypes[n - 1]]| > 0 then [Category(MediaTypes[n - 1])] else [])
  }

  function ScopesOf(files: seq<ExportFile>): (scopes: seq<Scope>)
    ensures |scopes| == |files|
    ensures forall i :: 0 <= i < |files| ==> scopes[i] == files[i].scope
  {
    seq(|files|, i requires 0 <= i < |files| => files[i].scope)
  }

  /** `file` holds the export of the records of its scope. */
  ghost predicate FileMatches(file: ExportFile, categorized: map<MediaType, seq<HistoryItem>>,
                              globalHistory: seq<HistoryItem>, render: DateRenderer)
  {
    match file.scope
    case GlobalScope => IsExportOf(file.table, globalHistory, render)
    case Category(c) => c in categorized && IsExportOf(file.table, categorized[c], render)
  }

  /** Every file holds the export of the records of its scope. */
  ghost predicate FilesMatch(files: seq<ExportFile>, categorized: map<MediaType, seq<HistoryItem>>,
                             globalHistory: seq<HistoryItem>, render: DateRenderer)
  {
    forall i :: 0 <= i < |files| ==> FileMatches(files[i], categorized, globalHistory, render)
  }

  /** Filling in category `c` and growing the global history keeps every
      earlier category file matched, and the file written for `c`, if any,
      holds the export of its records. */
  lemma FilesStep(files: seq<ExportFile>, categorized: map<MediaType, seq<HistoryItem>>,
                  globalHistory: seq<HistoryItem>, render: DateRenderer,
                  c: MediaType, v: seq<HistoryItem>, globalAfter: seq<HistoryItem>, written: Option<CsvTable>)
    requires FilesMatch(files, categorized, globalHistory, render)
    requires forall i :: 0 <= i < |files| ==> files[i].scope.Category? && files[i].scope.mediaType != c
    requires written.Some? ==> IsExportOf(written.value, v, render)
    ensures FilesMatch(files + FileFor(c, written), categorized[c := v], globalAfter, render)
  {
    var next := files + FileFor(c, written);
    forall i | 0 <= i < |next| ensures FileMatches(next[i], categorized[c := v], globalAfter, render) {
      if i < |files| {
        assert next[i] == files[i];
        assert FileMatches(files[i], categorized, globalHistory, render);
      }
    }
  }

  lemma ConcatenationFrame(categorized: map<MediaType, seq<HistoryItem>>, c: MediaType, v: seq<HistoryItem>, n: nat)
    requires n <= |MediaTypes|
    requires forall c :: c in MediaTypes ==> c in categorized
    requires c !in MediaTypes[..n]
    ensures Concatenation(categorized[c := v], n) == Concatenation(categorized, n)
    ensures CategoryScopes(categorized[c := v], n) == CategoryScopes(categorized, n)
  {
    if n > 0 {
      assert MediaTypes[..n - 1] <= MediaTypes[..n];
      ConcatenationFrame(categorized, c, v, n - 1);
    }
  }

  /** One pass of the category loop: fetch the category's pages, then write
      its file unless this is a dry run or nothing was gathered. */
  method ProcessCategory(source: PageSource, dryRun: bool, render: DateRenderer, ghost bound: nat,
                         global: seq<HistoryItem>)
    returns (category: seq<HistoryItem>, globalAfter: seq<HistoryItem>, written: Option<CsvTable>)
    requires forall offset: nat :: Reported(source(offset)) <= bound
    ensures Gathered(source, dryRun, category)
    ensures globalAfter == global + category
    ensures dryRun ==> category == []
    ensures written.Some? <==> !dryRun && |category| > 0
    ensures written.Some? ==> IsExportOf(written.value, category, render)
  {
    ghost var pages, why;
    category, globalAfter, pages, why := FetchCategory(source, dryRun, bound, global);
    if dryRun {
      DryRunFetchesOnce(source, category, pages, why);
    }
    written := None;
    if !dryRun && |category| > 0 {
      written := WriteToCsv(category, render);
    }
  }

  /** `category` is what the pagination loop gathers from `source`. */
  ghost predicate Gathered(source: PageSource, dryRun: bool, category: seq<HistoryItem>) {
    exists pages, why :: FetchOutcome(source, dryRun, category, pages, why)
  }

  /** The records of category `c` are what its pagination loop gathers. */
  ghost predicate Fetched(sources: MediaType -> PageSource, dryRun: bool,
                          categorized: map<MediaType, seq<HistoryItem>>, c: MediaType)
  {
    c in categorized && Gathered(sources(c), dryRun, categorized[c])
  }

  /** The file written for one category, if any. */
  function FileFor(mType: MediaType, written: Option<CsvTable>): seq<ExportFile> {
    if written.Some? then [ExportFile(Category(mType), written.value)] else []
  }

  /** Storing category `i` keeps the earlier categories fetched and adds it. */
  lemma FetchedStep(sources: MediaType -> PageSource, dryRun: bool,
                    categorized: map<MediaType, seq<HistoryItem>>, i: nat, category: seq<HistoryItem>)
    requires i < |MediaTypes|
    requires forall j :: 0 <= j < i ==> Fetched(sources, dryRun, categorized, MediaTypes[j])
    requires Gathered(sources(MediaTypes[i]), dryRun, category)
    ensures forall j :: 0 <= j <= i ==> Fetched(sources, dryRun, categorized[MediaTypes[i] := category], MediaTypes[j])
  {
    forall j | 0 <= j <= i ensures Fetched(sources, dryRun, categorized[MediaTypes[i] := category], MediaTypes[j]) {
      if j < i {
        assert Fetched(sources, dryRun, categorized, MediaTypes[j]);
      }
    }
  }

  /** Storing category `i` extends the global history and the scopes written
      by that category's records and file. */
  lemma ConcatenationStep(dryRun: bool, categorized: map<MediaType, seq<HistoryItem>>, i: nat,
                          globalHistory: seq<HistoryItem>, files: seq<ExportFile>,
                          category: seq<HistoryItem>, written: Option<CsvTable>)
    requires i < |MediaTypes|
    requires forall c :: c in MediaTypes ==> c in categorized
    requires globalHistory == Concatenation(categorized, i)
    requires !dryRun ==> ScopesOf(files) == CategoryScopes(categorized, i)
    requires written.Some? <==> !dryRun && |category| > 0
    ensures globalHistory + category == Concatenation(categorized[MediaTypes[i] := category], i + 1)
    ensures !dryRun ==> ScopesOf(files + FileFor(MediaTypes[i], written)) ==
                          CategoryScopes(categorized[MediaTypes[i] := category], i + 1)
  {
    assert MediaTypes[i] !in MediaTypes[..i];
    ConcatenationFrame(categorized, MediaTypes[i], category, i);
    if !dryRun {
      assert ScopesOf(files + FileFor(MediaTypes[i], written)) ==
             ScopesOf(files) + (if |category| > 0 then [Category(MediaTypes[i])] else []);
    }
  }

  /** The global history after the loop is the movies followed by the episodes. */
  lemma ConcatenationOfAll(categorized: map<MediaType, seq<HistoryItem>>)
    requires forall c :: c in MediaTypes ==> c in categorized
    ensures Concatenation(categorized, |MediaTypes|) == categorized[Movie] + categorized[Episode]
  {
    assert MediaTypes[0] == Movie && MediaTypes[1] == Episode;
    assert Concatenation(categorized, 1) == categorized[Movie];
  }

  /** Appending the global file adds the global scope and keeps every file matched. */
  lemma GlobalFileStep(files: seq<ExportFile>, categorized: map<MediaType, seq<HistoryItem>>,
                       globalHistory: seq<HistoryItem>, render: DateRenderer, table: CsvTable)
    requires FilesMatch(files, categorized, globalHistory, render)
    requires IsExportOf(table, globalHistory, render)
    ensures ScopesOf(files + [ExportFile(GlobalScope, table)]) == ScopesOf(files) + [GlobalScope]
    ensures FilesMatch(files + [ExportFile(GlobalScope, table)], categorized, globalHistory, render)
  {
    var next := files + [ExportFile(GlobalScope, table)];
    forall i | 0 <= i < |next| ensures FileMatches(next[i], categorized, globalHistory, render) {
      if i < |files| {
        assert next[i] == files[i];
      }
    }
  }

  /** The category loop of `main`: each category is fetched in turn, added to
      the global history, and exported unless this is a dry run or it is empty.
      `sources(c)` answers the requests of category `c`; `bound` bounds every
      total the server reports. */
  method ExportCategories(sources: MediaType -> PageSource, dryRun: bool, render: DateRenderer, ghost bound: nat)
    returns (categorized: map<MediaType, seq<HistoryItem>>, globalHistory: seq<HistoryItem>,
             files: seq<ExportFile>)
    requires forall c, offset: nat :: Reported(sources(c)(offset)) <= bound
    ensures forall c :: c in categorized <==> c in MediaTypes
    ensures forall c :: c in MediaTypes ==> Fetched(sources, dryRun, categorized, c)
    ensures globalHistory == Concatenation(categorized, |MediaTypes|)
    ensures dryRun ==> globalHistory == [] && files == []
    ensures !dryRun ==> ScopesOf(files) == CategoryScopes(categorized, |MediaTypes|)
    ensures FilesMatch(files, categorized, globalHistory, render)
  {
    // A category never fetched reads as empty, as a missing key does in Go.
    categorized := map c | c in MediaTypes :: [];
    globalHistory := [];
    files := [];
    for i := 0 to |MediaTypes|
      invariant forall c :: c in categorized <==> c in MediaTypes
      invariant forall j :: 0 <= j < i ==> Fetched(sources, dryRun, categorized, MediaTypes[j])
      invariant dryRun ==> globalHistory == [] && files == []
      invariant globalHistory == Concatenation(categorized, i)
      invariant !dryRun ==> ScopesOf(files) == CategoryScopes(categorized, i)
      invariant forall k :: 0 <= k < |files| ==> files[k].scope.Category? && files[k].scope.mediaType in MediaTypes[..i]
      invariant FilesMatch(files, categorized, globalHistory, render)
    {
      var mType := MediaTypes[i];
      var category, globalAfter, written := ProcessCategory(sources(mType), dryRun, render, bound, globalHistory);
      FetchedStep(sources, dryRun, categorized, i, category);
      ConcatenationStep(dryRun, categorized, i, globalHistory, files, category, written);
      FilesStep(files, categorized, globalHistory, render, mType, category, globalAfter, written);
      categorized := categorized[mType := category];
      globalHistory := globalAfter;
      files := files + FileFor(mType, written);
    }
  }

  /** `main` from the category loop on: the category files, then the global
      file when anything was gathered, none of them in a dry run. */
  method Run(sources: MediaType -> PageSource, dryRun: bool, render: DateRenderer, ghost bound: nat)
    returns (categorized: map<MediaType, seq<HistoryItem>>, globalHistory: seq<HistoryItem>,
             files: seq<ExportFile>)
    requires forall c, offset: nat :: Reported(sources(c)(offset)) <= bound
    ensures forall c :: c in categorized <==> c in MediaTypes
    ensures forall c :: c in MediaTypes ==> Fetched(sources, dryRun, categorized, c)
    ensures globalHistory == categorized[Movie] + categorized[Episode]
    ensures dryRun ==> globalHistory == [] && files == []
    ensures !dryRun ==> ScopesOf(files) == CategoryScopes(categorized, |MediaTypes|) +
                          (if |globalHistory| > 0 then [GlobalScope] else [])
    ensures FilesMatch(files, categorized, globalHistory, render)
  {
    categorized, globalHistory, files := ExportCategories(sources, dryRun, render, bound);
    ConcatenationOfAll(categorized);
    if !dryRun && |globalHistory| > 0 {
      var written := WriteToCsv(globalHistory, render);
      GlobalFileStep(files, categorized, globalHistory, render, written.value);
      files := files + [ExportFile(GlobalScope, written.value)];
    }
  }
}
