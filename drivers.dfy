/**
 * The two exhaustion loops of the listing scrape. The page is an input: for
 * pagination, the sequence of pages the "next" control leads through (each
 * page's review elements and the state of its next control); for infinite
 * scroll, the sequence of document heights measured after each scroll and the
 * review elements present once scrolling stops. The settle delays are not
 * modelled; each loop step is one atomic step.
 */
module Drivers {
  import opened Records
  import opened Dedup
  import opened Collection

  /** What `document.querySelector('.jdgm-paginate__next-page')` finds. */
  datatype NextButton =
    | Absent
    | Button(classes: set<string>, ariaDisabled: Option<string>)  // class list, aria-disabled attribute

  /** The loop's exit test: no control, class `jdgm-disabled`, or `aria-disabled` equal to "true". */
  predicate IsLastPage(b: NextButton)
  {
    b.Absent? || "jdgm-disabled" in b.classes || b.ariaDisabled == Some("true")
  }

  /** One state of the paginated listing. */
  datatype Page = Page(elements: seq<ListingElement>, next: NextButton)

  /** The index of the first page whose next control ends the loop; `|pages|` if there is none. */
  function FirstLastPage(pages: seq<Page>): (k: nat)
    ensures k <= |pages|
    ensures k < |pages| ==> IsLastPage(pages[k].next)
    ensures forall j :: 0 <= j < k ==> !IsLastPage(pages[j].next)
  {
    if pages == [] then 0
    else if IsLastPage(pages[0].next) then 0
    else 1 + FirstLastPage(pages[1..])
  }

  /** The records of the given pages, page after page, each in document order. */
  function RecordsOf(pages: seq<Page>): seq<Review>
  {
    if pages == [] then [] else RecordsOf(pages[..|pages| - 1]) + ExtractAll(pages[|pages| - 1].elements)
  }

  /** Each of the three signals alone ends the loop; an enabled control does not. */
  lemma LastPageSignals(classes: set<string>, aria: Option<string>)
    ensures IsLastPage(Absent)
    ensures "jdgm-disabled" in classes ==> IsLastPage(Button(classes, aria))
    ensures aria == Some("true") ==> IsLastPage(Button(classes, aria))
    ensures "jdgm-disabled" !in classes && aria != Some("true") ==> !IsLastPage(Button(classes, aria))
  {
  }

  /** Extracting page `n` into the records of the pages before it gives the records of the first `n` pages. */
  lemma MergeNextPage(acc: seq<Review>, pages: seq<Page>, n: nat)
    requires 0 < n <= |pages|
    ensures Merge(Merge(acc, RecordsOf(pages[..n - 1])), ExtractAll(pages[n - 1].elements))
         == Merge(acc, RecordsOf(pages[..n]))
  {
    assert pages[..n][..n - 1] == pages[..n - 1];
    MergeAppend(acc, RecordsOf(pages[..n - 1]), ExtractAll(pages[n - 1].elements));
  }

  /**
   * `clickNextUntilEnd`: extract, then stop on the last page or click next
   * and count one more page. Every page up to and including the first last
   * page is extracted exactly once, in order; `page` ends as the number of
   * pages visited and `clicks` as one less.
   */
  method ClickNextUntilEnd(store: ReviewCollection, pages: seq<Page>) returns (page: nat, extractions: nat, clicks: nat)
    requires store.Valid()
    requires FirstLastPage(pages) < |pages|
    modifies store
    ensures store.Valid()
    ensures page == FirstLastPage(pages) + 1
    ensures extractions == page && clicks == page - 1
    ensures store.Reviews() == Merge(old(store.Reviews()), RecordsOf(pages[..page]))
  {
    ghost var start := store.Reviews();
    page := 1;
    extractions, clicks := 0, 0;
    while true
      invariant 1 <= page <= FirstLastPage(pages) + 1
      invariant extractions == clicks == page - 1
      invariant store.Valid()
      invariant store.Reviews() == Merge(start, RecordsOf(pages[..page - 1]))
      decreases |pages| - page
    {
      store.ExtractReviewsFromPage(pages[page - 1].elements);
      extractions := extractions + 1;
      MergeNextPage(start, pages, page);
      if IsLastPage(pages[page - 1].next) {
        break;
      }
      clicks := clicks + 1;
      page := page + 1;
    }
  }

  /**
   * The index of the first measurement equal to the one before it (the one
   * before the first is `last`); `|heights|` if there is none.
   */
  function FirstRepeat(last: nat, heights: seq<nat>): (k: nat)
    ensures k <= |heights|
    ensures k < |heights| ==> heights[k] == (if k == 0 then last else heights[k - 1])
    ensures forall j :: 0 <= j < k ==> heights[j] != (if j == 0 then last else heights[j - 1])
    decreases |heights|
  {
    if heights == [] then 0
    else if heights[0] == last then 0
    else 1 + FirstRepeat(heights[0], heights[1..])
  }

  /** The scroll loop starts from a previous height of 0. */
  function FirstStable(heights: seq<nat>): nat
  {
    FirstRepeat(0, heights)
  }

  /**
   * `scrollAndScrape`: scroll, measure, stop when the height equals the
   * previous one; extract once afterwards. The k-th scroll (from 0) measures
   * `heights[k]`, so the loop scrolls once more than the index of the first
   * repeated height.
   */
  method ScrollAndScrape(store: ReviewCollection, heights: seq<nat>, loaded: seq<ListingElement>)
    returns (scrolls: nat, extractions: nat)
    requires store.Valid()
    requires FirstStable(heights) < |heights|
    modifies store
    ensures store.Valid()
    ensures scrolls == FirstStable(heights) + 1
    ensures extractions == 1
    ensures store.Reviews() == Merge(old(store.Reviews()), ExtractAll(loaded))
  {
    var lastHeight := 0;
    scrolls, extractions := 0, 0;
    while true
      invariant scrolls <= FirstStable(heights)
      invariant lastHeight == if scrolls == 0 then 0 else heights[scrolls - 1]
      decreases |heights| - scrolls
    {
      var currentHeight := heights[scrolls];  // window.scrollTo, then document.body.scrollHeight
      scrolls := scrolls + 1;
      if currentHeight == lastHeight {
        break;
      }
      lastHeight := currentHeight;
    }
    store.ExtractReviewsFromPage(loaded);
    extractions := extractions + 1;
  }

  /** Heights 1000, 2000, 2000: the third measurement repeats, so three scrolls happen. */
  lemma ScrollExample()
    ensures FirstStable([1000, 2000, 2000]) + 1 == 3
  {
  }

  /** A first measurement of 0 equals the initial previous height: one scroll. */
  lemma ScrollEmptyPage(heights: seq<nat>)
    requires |heights| > 0 && heights[0] == 0
    ensures FirstStable(heights) + 1 == 1
  {
  }

  /** Pages whose ids are new and different from each other are stored whole, page after page. */
  lemma DistinctPagesKept(pages: seq<Page>)
    requires DistinctIds(RecordsOf(pages))
    ensures Merge([], RecordsOf(pages)) == RecordsOf(pages)
  {
    MergeFresh([], RecordsOf(pages));
    assert [] + RecordsOf(pages) == RecordsOf(pages);
  }
}
