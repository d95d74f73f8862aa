/**
 * The per-category pagination loop of `main`. The HTTP request, the body
 * read and the JSON decoding are replaced by a page source: the response
 * the server gives for each offset (a decoding failure shows up as a page
 * with no items and a zero total).
 */
module Paginator {
  import opened History

  /** One request: the transport failed, or a decoded page with its items and
      the `recordsFiltered` total the server reports. */
  datatype Response = TransportError | Page(items: seq<HistoryItem>, recordsFiltered: int)

  /** The responses for one category, by start offset. */
  type PageSource = nat -> Response

  /** Records requested per page. */
  const PageSize := 100

  /** Why the loop of a category ended. */
  datatype Stop =
    | FetchFailed           // the request failed; no retry
    | DryRun(reported: int) // dry run: only the total was wanted
    | NoRecords             // the server reports no records at all
    | Exhausted             // the total is reached or the page was short

  datatype Step = Continue | Halt(why: Stop)

  function Reported(r: Response): int {
    if r.Page? then r.recordsFiltered else 0
  }

  function ItemsOf(r: Response): seq<HistoryItem> {
    if r.Page? then r.items else []
  }

  /** The decision taken after a request, the checks in the order the loop
      makes them: transport error, dry run, zero total, then total reached or
      short page. `before` is the number of records gathered for the
      category before this page. */
  function Decide(r: Response, dryRun: bool, before: nat): (step: Step)
    ensures step == Continue <==>
              && r.Page? && !dryRun && r.recordsFiltered != 0
              && |r.items| >= PageSize && before + |r.items| < r.recordsFiltered
    ensures r.TransportError? ==> step == Halt(FetchFailed)
    ensures r.Page? && dryRun ==> step == Halt(DryRun(r.recordsFiltered))
    ensures r.Page? && !dryRun && r.recordsFiltered == 0 ==> step == Halt(NoRecords)
    ensures r.Page? && !dryRun && r.recordsFiltered != 0 && step != Continue ==> step == Halt(Exhausted)
  {
    match r
    case TransportError => Halt(FetchFailed)
    case Page(items, total) =>
      if dryRun then Halt(DryRun(total))
      else if total == 0 then Halt(NoRecords)
      else if before + |items| >= total || |items| < PageSize then Halt(Exhausted)
      else Continue
  }

  /** The items of the first `n` pages, in order. */
  function Collected(source: PageSource, n: nat): seq<HistoryItem> {
    if n == 0 then [] else Collected(source, n - 1) + ItemsOf(PageAt(source, n - 1))
  }

  /** The response to the request for page `p`. */
  function PageAt(source: PageSource, p: nat): Response {
    source(p * PageSize)
  }

  /** The decision taken after fetching page `p`, all earlier pages having
      been appended. */
  function DecisionAt(source: PageSource, dryRun: bool, p: nat): Step {
    Decide(PageAt(source, p), dryRun, |Collected(source, p)|)
  }

  /** How the loop of one category ends: `pages` requests were made, each but
      the last decided to continue, the last decided to stop for `why`, and
      the category holds every page fetched, the last one only when its items
      were appended (the total was reached or the page was short). */
  ghost predicate FetchOutcome(source: PageSource, dryRun: bool, category: seq<HistoryItem>, pages: nat, why: Stop) {
    && pages >= 1
    && (forall p :: 0 <= p < pages - 1 ==> DecisionAt(source, dryRun, p) == Continue)
    && DecisionAt(source, dryRun, pages - 1) == Halt(why)
    && category == if why == Exhausted then Collected(source, pages) else Collected(source, pages - 1)
  }

  /** The most requests a category can take when no reported total exceeds
      `bound`: one, or the number of pages `bound` records fill. */
  function MaxPages(bound: nat): nat {
    if bound == 0 then 1 else (bound + PageSize - 1) / PageSize
  }

  /** The `for { ... }` loop of one category. `global` is the global history
      before the category; the category starts empty. */
  method FetchCategory(source: PageSource, dryRun: bool, ghost bound: nat, global: seq<HistoryItem>)
    returns (category: seq<HistoryItem>, globalAfter: seq<HistoryItem>, ghost pages: nat, ghost why: Stop)
    requires forall offset: nat :: Reported(source(offset)) <= bound
    ensures FetchOutcome(source, dryRun, category, pages, why)
    ensures 1 <= pages <= MaxPages(bound)
    ensures globalAfter == global + category
  {
    category := [];
    globalAfter := global;
    pages := 0;
    var startOffset := 0;
    while true
      invariant startOffset == pages * PageSize
      invariant category == Collected(source, pages)
      invariant globalAfter == global + category
      invariant forall p :: 0 <= p < pages ==> DecisionAt(source, dryRun, p) == Continue
      invariant PageSize * pages <= |category|
      invariant pages > 0 ==> |category| < bound
      decreases MaxPages(bound) - pages
    {
      var resp := source(startOffset);
      assert resp == PageAt(source, pages);
      ghost var step := DecisionAt(source, dryRun, pages);
      assert Collected(source, pages + 1) == category + ItemsOf(resp);
      pages := pages + 1;
      if resp.TransportError? {
        why := FetchFailed;
        break;
      }
      var total := resp.recordsFiltered;
      if dryRun {
        why := DryRun(total);
        break;
      }
      if total == 0 {
        why := NoRecords;
        break;
      }
      var items := resp.items;
      category := category + items;
      globalAfter := globalAfter + items;
      if |category| >= total || |items| < PageSize {
        why := Exhausted;
        break;
      }
      assert step == Continue;
      startOffset := startOffset + PageSize;
    }
  }

  /** The outcome of a category is determined by the responses: no two page
      counts, stop reasons or collected sequences fit the same source. */
  lemma FetchOutcomeUnique(source: PageSource, dryRun: bool,
                           c1: seq<HistoryItem>, n1: nat, w1: Stop,
                           c2: seq<HistoryItem>, n2: nat, w2: Stop)
    requires FetchOutcome(source, dryRun, c1, n1, w1)
    requires FetchOutcome(source, dryRun, c2, n2, w2)
    ensures n1 == n2 && w1 == w2 && c1 == c2
  {
  }

  /** A dry run makes one request and gathers nothing. */
  lemma DryRunFetchesOnce(source: PageSource, category: seq<HistoryItem>, pages: nat, why: Stop)
    requires FetchOutcome(source, true, category, pages, why)
    ensures pages == 1 && category == []
    ensures source(0).TransportError? ==> why == FetchFailed
    ensures source(0).Page? ==> why == DryRun(source(0).recordsFiltered)
  {
    assert DecisionAt(source, true, 0) != Continue;
    assert PageAt(source, 0) == source(0);
  }

  /** A zero total on the first page ends the category at once, empty. */
  lemma ZeroTotalFetchesOnce(source: PageSource, category: seq<HistoryItem>, pages: nat, why: Stop)
    requires source(0).Page? && source(0).recordsFiltered == 0
    requires FetchOutcome(source, false, category, pages, why)
    ensures pages == 1 && why == NoRecords && category == []
  {
    assert PageAt(source, 0) == source(0);
    assert DecisionAt(source, false, 0) == Halt(NoRecords);
  }

  /** A total of 150: a full first page and a short second page of 50 make two
      requests and gather both pages. */
  lemma FullThenShortPage(source: PageSource, category: seq<HistoryItem>, pages: nat, why: Stop)
    requires source(0).Page? && source(0).recordsFiltered == 150 && |source(0).items| == PageSize
    requires source(PageSize).Page? && source(PageSize).recordsFiltered == 150
    requires |source(PageSize).items| == 50
    requires FetchOutcome(source, false, category, pages, why)
    ensures pages == 2 && why == Exhausted
    ensures category == source(0).items + source(PageSize).items
  {
    assert PageAt(source, 0) == source(0);
    assert PageAt(source, 1) == source(PageSize);
    assert Collected(source, 1) == source(0).items;
    assert DecisionAt(source, false, 0) == Continue;
    assert DecisionAt(source, false, 1) == Halt(Exhausted);
  }

  /** No retry: a failing second request ends the category, and the records
      of the first page are kept. */
  lemma FailureKeepsEarlierPages(source: PageSource, category: seq<HistoryItem>, pages: nat, why: Stop)
    requires source(0).Page? && |source(0).items| == PageSize
    requires source(0).recordsFiltered > PageSize
    requires source(PageSize) == TransportError
    requires FetchOutcome(source, false, category, pages, why)
    ensures pages == 2 && why == FetchFailed
    ensures category == source(0).items
  {
    assert PageAt(source, 0) == source(0);
    assert PageAt(source, 1) == source(PageSize);
    assert Collected(source, 1) == source(0).items;
    assert DecisionAt(source, false, 0) == Continue;
    assert DecisionAt(source, false, 1) == Halt(FetchFailed);
  }
}
