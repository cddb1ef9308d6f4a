/**
 * The two scrape runs. The listing run probes for the pagination block, drives
 * the matching loop to its end into a fresh collection, and then either
 * reports that nothing was found or builds the CSV from the collection. The
 * carousel run maps every carousel item to a record, with no deduplication,
 * and builds the CSV the same way.
 *
 * The status toasts are recorded as the list of messages shown; the file
 * download itself is not modelled: the CSV text is the result.
 */
module Scrape {
  import opened Records
  import opened Csv
  import opened Dedup
  import opened Collection
  import opened Drivers

  datatype Strategy = Pagination | InfiniteScroll

  /** The status messages the runs show, by kind. */
  datatype Status =
    | Detected(strategy: Strategy)      // "Detected pagination..." / "No pagination detected..."
    | NoReviewsFound                    // "No reviews found..."
    | Downloaded(count: nat)            // "Downloaded N reviews."
    | NoCarouselReviewsFound            // "No carousel reviews found..."
    | CarouselDownloaded(count: nat)    // "Downloaded N carousel reviews."

  datatype Outcome = Outcome(messages: seq<Status>, csv: Option<string>)

  /**
   * The listing page as the run sees it: whether `.jdgm-paginate` exists, the
   * pages the next control leads through, the heights measured after each
   * scroll, and the review elements present once scrolling has stopped.
   */
  datatype ListingDocument = ListingDocument(
    hasPaginate: bool,
    pages: seq<Page>,
    heights: seq<nat>,
    loaded: seq<ListingElement>)

  /** The chosen loop reaches its end within the given inputs. */
  predicate Finishes(doc: ListingDocument)
  {
    if doc.hasPaginate then FirstLastPage(doc.pages) < |doc.pages| else FirstStable(doc.heights) < |doc.heights|
  }

  function StrategyOf(doc: ListingDocument): Strategy
  {
    if doc.hasPaginate then Pagination else InfiniteScroll
  }

  /** Every record the run's extraction passes read, in the order they read them. */
  function Extracted(doc: ListingDocument): seq<Review>
    requires Finishes(doc)
  {
    if doc.hasPaginate then RecordsOf(doc.pages[..FirstLastPage(doc.pages) + 1]) else ExtractAll(doc.loaded)
  }

  /** The end of a listing run, given the records the collection holds. */
  function Report(s: Strategy, reviews: seq<Review>): Outcome
  {
    if |reviews| == 0 then Outcome([Detected(s), NoReviewsFound], None)
    else Outcome([Detected(s), Downloaded(|reviews|)], Some(ToCsv(reviews)))
  }

  function ListingOutcome(doc: ListingDocument): Outcome
    requires Finishes(doc)
  {
    Report(StrategyOf(doc), Merge([], Extracted(doc)))
  }

  /** The listing run (button 1), against a fresh collection. */
  method ScrapeListing(doc: ListingDocument) returns (out: Outcome)
    requires Finishes(doc)
    ensures out == ListingOutcome(doc)
  {
    var store := new ReviewCollection();
    var strategy;
    if doc.hasPaginate {
      strategy := Pagination;
      var page, extractions, clicks := ClickNextUntilEnd(store, doc.pages);
    } else {
      strategy := InfiniteScroll;
      var scrolls, extractions := ScrollAndScrape(store, doc.heights, doc.loaded);
    }
    var reviews := store.Reviews();
    assert reviews == Merge([], Extracted(doc)) && strategy == StrategyOf(doc);
    out := Report(strategy, reviews);
  }

  /**
   * What a listing run produces: no file, and the failure message, exactly
   * when no record was read; otherwise a CSV that reads back as the header and
   * one line per distinct id, holding the first record read with that id, in
   * order of first sighting, and a message with that count.
   */
  lemma ListingResult(doc: ListingDocument)
    requires Finishes(doc)
    ensures var out := ListingOutcome(doc);
      && (out.csv.None? <==> Extracted(doc) == [])
      && (out.csv.None? ==> out.messages == [Detected(StrategyOf(doc)), NoReviewsFound])
      && (out.csv.Some? ==> out.messages == [Detected(StrategyOf(doc)), Downloaded(|Ids(Extracted(doc))|)])
      && (out.csv.Some? ==> ParseCsv(out.csv.value) == Some([Header] + FieldsOf(Merge([], Extracted(doc)))))
      && IsFirstSeen(Merge([], Extracted(doc)), Extracted(doc))
  {
    var seen := Extracted(doc);
    RunFirstSeen(seen);
    RunCount(seen);
    if seen != [] {
      assert seen[0].id in Ids(seen);
    }
    CsvRoundTrip(Merge([], seen));
  }

  /** Listing elements without a review id all land under the key "": only the first is kept. */
  lemma MissingIdsCollapse(els: seq<ListingElement>)
    requires |els| > 0
    requires forall i :: 0 <= i < |els| ==> els[i].reviewId.None?
    ensures Merge([], ExtractAll(els)) == [ExtractListing(els[0])]
  {
    var page := ExtractAll(els);
    var first := [ExtractListing(els[0])];
    assert Ids(first) == {""} by { assert first[0].id == ""; }
    assert Insert([], page[0]) == first;
    forall i | 0 <= i < |page[1..]| ensures page[1..][i].id in Ids(first) {
      assert page[1..][i] == ExtractListing(els[i + 1]);
    }
    MergeSeen(first, page[1..]);
  }

  /** Two listing elements with the same id: the second is dropped. */
  lemma ListingDropsDuplicate(a: ListingElement, b: ListingElement)
    requires OrEmpty(a.reviewId) == OrEmpty(b.reviewId)
    ensures Merge([], ExtractAll([a, b])) == [ExtractListing(a)]
  {
    var page := ExtractAll([a, b]);
    var first := [ExtractListing(a)];
    assert Insert([], page[0]) == first;
    assert page[1..] == [ExtractListing(b)];
    assert ExtractListing(b).id in Ids(first) by { assert first[0].id == ExtractListing(b).id; }
    calc {
      Merge([], page);
      Merge(first, page[1..]);
      { assert page[1..][0] == page[1] && page[1..][1..] == []; }
      Merge(Insert(first, page[1]), []);
    }
  }

  // ---------------------------------------------------------------------
  // The carousel run (button 2).
  // ---------------------------------------------------------------------

  function CarouselRecords(items: seq<CarouselElement>): (rs: seq<Review>)
    ensures |rs| == |items|
    ensures forall i :: 0 <= i < |items| ==> rs[i] == ExtractCarousel(items[i])
  {
    seq(|items|, i requires 0 <= i < |items| => ExtractCarousel(items[i]))
  }

  /** Every carousel item becomes a record, in document order; no file when there is none. */
  function ScrapeCarousel(items: seq<CarouselElement>): (out: Outcome)
    ensures out.csv.None? <==> items == []
    ensures items == [] ==> out.messages == [NoCarouselReviewsFound]
    ensures items != [] ==> out.messages == [CarouselDownloaded(|items|)]
  {
    var reviews := CarouselRecords(items);
    if |reviews| == 0 then Outcome([NoCarouselReviewsFound], None)
    else Outcome([CarouselDownloaded(|reviews|)], Some(ToCsv(reviews)))
  }

  /**
   * The carousel CSV reads back as the header and exactly one line per item,
   * in document order, items with the same id included.
   */
  lemma CarouselRows(items: seq<CarouselElement>)
    requires items != []
    ensures var rows := ParseCsv(ScrapeCarousel(items).csv.value);
      && rows.Some? && |rows.value| == |items| + 1 && rows.value[0] == Header
      && forall i :: 0 <= i < |items| ==> rows.value[i + 1] == Fields(ExtractCarousel(items[i]))
  {
    CsvRoundTrip(CarouselRecords(items));
  }

  /** No lit star gives an empty cell; otherwise the cell is the star count, quoted. */
  lemma StarCell(el: CarouselElement)
    ensures el.starsOn == 0 ==> Escape(ExtractCarousel(el).rating) == ""
    ensures el.starsOn > 0 ==> Escape(ExtractCarousel(el).rating) == "\"" + NatToDecimal(el.starsOn) + "\""
  {
    if el.starsOn > 0 {
      var digits := NatToDecimal(el.starsOn);
      assert '"' !in digits by {
        forall i | 0 <= i < |digits| ensures digits[i] != '"' { }
      }
      NoQuoteUnchanged(digits);
    }
  }
}
