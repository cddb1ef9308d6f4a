# Judge.me review scraper: a verified model

The extension's popup offers two scrapes of the page in the active tab.

- **Listing scrape (button 1).** It looks for the Judge.me pagination block.
  - If the block is there, it extracts the `.jdgm-rev` elements of each page and clicks "next" until the control is absent or disabled.
  - Otherwise it scrolls to the bottom until a measured height equals the one measured before it (the first is compared with 0), then extracts once.
  - Every extracted record goes into an insertion-ordered map keyed by review id. A record goes in only if its id is not a key yet, so the first record seen with an id wins.
  - If the map ends up empty, the run reports that no reviews were found. Otherwise it builds a CSV from the map's values: a fixed header line, then one line of eight escaped cells per record.
- **Carousel scrape (button 2).** It maps every `.jdgm-carousel-item` to the same record shape, with no deduplication, and builds the CSV the same way.

The model has six modules.

- `Records` holds the record, the element lookups as abstract inputs, and the field defaulting of both paths. This covers JavaScript's `|| ''`, the product fallback, newline replacement in bodies, and the star count as decimal text.
- `Csv` holds cell escaping and row and document assembly. It also holds a reader for the format, with round-trip lemmas: reading a produced document gives back the header and every record's eight values.
- `Dedup` is first-seen-wins insertion on values (`Insert`, `Merge`). It comes with an independent description, `IsFirstSeen`: one record per distinct id, the first one seen, in order of first sighting.
- `Collection` holds the review collection, a class with the map's key order and contents as fields. `ExtractReviewsFromPage` is a method that loops over a page and updates the fields in place, and it is proved equal to `Merge`.
- `Drivers` holds the pagination loop and the scroll loop. Each is a method with a `while` loop over finite inputs: the page sequence, and the heights measured after each scroll.
- `Scrape` holds the top-level strategy choice, the empty check and the outcome of both runs: the status messages shown and the CSV text.

## Model

| member | source | states |
|---|---|---|
| Records.OrElse | popup.js:24 | a present, non-empty product-title attribute wins; otherwise the link text, or "" when that is missing too |
| Records.ReplaceNewlines | popup.js:23 | same length; every line feed becomes a space and every other character stays; the result has no line feed |
| Records.ExtractListing | popup.js:18-25 | each field is its lookup or "" when missing; the id is "" exactly when the attribute is missing or empty; the body is the text with line feeds turned into spaces; the product is the non-empty product-title attribute, else the link text, else "" |
| Records.ExtractAll | popup.js:16-17 | one record per element, in document order |
| Records.NatToDecimal | popup.js:123 | a non-empty string of decimal digits without a leading zero |
| Records.DecimalRoundTrip | popup.js:123 | reading the decimal text back gives the number |
| Records.StarRating | popup.js:129 | the rating is "" exactly when no star is lit; otherwise it is digits denoting the star count |
| Records.ExtractCarousel | popup.js:127-135 | each carousel field is its lookup or ""; the rating is the star count's text, "" exactly when no star is lit; the body is the text with line feeds turned into spaces and every other character kept |
| Csv.NoQuoteUnchanged | popup.js:12 | quote doubling leaves text without quotes unchanged |
| Csv.Escape | popup.js:12 | the cell is empty exactly when the value is empty; otherwise it begins and ends with a quote |
| Csv.UnescapeEscape | popup.js:121-124 | reading an escaped cell on its own gives back the original value |
| Csv.LineRoundTrip | popup.js:75-77 | reading a line of escaped cells joined by commas gives back every value, in order, and stops at the line's end |
| Csv.DocumentRoundTrip | popup.js:79 | reading lines joined by line feeds gives back every row |
| Csv.CsvRoundTrip | popup.js:74-79 | reading the produced CSV gives the header row followed by the eight fields (id, name, date, rating, title, body, product, image) of every record, in order |
| Csv.EmptyRecordLine | popup.js:143-146 | a record with every field empty becomes a line of seven commas |
| Dedup.FirstIndex | popup.js:26 | the position of the first record with a given id |
| Dedup.MergeFirstSeen | popup.js:26-28 | inserting a page into a first-seen collection gives the first-seen collection of everything seen so far |
| Dedup.RunFirstSeen | popup.js:68 | the stored values are one record per distinct id seen, each the first seen with that id, in order of first sighting |
| Dedup.RunCount | popup.js:68 | the number of stored records is the number of distinct ids seen |
| Dedup.MergeKeepsPrefix | popup.js:26-28 | a pass never overwrites or moves a stored record: the old collection is a prefix of the new one |
| Dedup.MergeSeen | popup.js:26 | a page whose ids are all stored changes nothing |
| Dedup.MergeIds | popup.js:26-28 | the stored ids after a pass are the old ones plus the page's |
| Dedup.Idempotent | popup.js:15-30 | extracting the same page twice leaves the collection as one extraction did |
| Dedup.MergeAppend | popup.js:35 | extracting pages one after another equals extracting their concatenation |
| Dedup.MergeFresh | popup.js:26-28 | new, mutually distinct ids are all appended in order |
| Collection.ReviewCollection.Reviews | popup.js:68 | the map's values in key order: one record per key, the one stored under it; their ids are exactly the keys, none twice |
| Collection.ReviewCollection.Add | popup.js:26-28 | a stored id leaves the map and key order unchanged; a new id is added under its own key and appended to the key order |
| Collection.ReviewCollection.ExtractReviewsFromPage | popup.js:15-30 | the new contents are the old contents with the page merged in, first seen wins |
| Drivers.LastPageSignals | popup.js:37 | each of an absent control, the class `jdgm-disabled`, or `aria-disabled` equal to "true" ends the loop alone; an enabled control does not |
| Drivers.FirstLastPage | popup.js:37 | the least page index whose control ends the loop |
| Drivers.ClickNextUntilEnd | popup.js:32-44 | the loop stops on the first last page; it extracts once per visited page and clicks once less; the collection is the pages up to and including that one, merged in order |
| Drivers.FirstRepeat | popup.js:48-54 | the least measurement index whose height equals the previous one |
| Drivers.ScrollAndScrape | popup.js:46-56 | it scrolls once more than the index of the first repeated height; it extracts exactly once, after the loop |
| Drivers.ScrollExample | popup.js:47-54 | heights 1000, 2000, 2000 take three scrolls |
| Drivers.ScrollEmptyPage | popup.js:47-52 | a first height of 0 stops the loop after one scroll |
| Drivers.DistinctPagesKept | popup.js:32-44 | pages with mutually distinct ids are all stored, in page order |
| Scrape.ScrapeListing | popup.js:58-79 | the run's outcome is the strategy message followed by the report on the collection filled by the chosen loop |
| Scrape.ListingResult | popup.js:68-89 | no file and the failure message exactly when nothing was extracted; otherwise a CSV that reads back as the header plus the first-seen records, and a count equal to the number of distinct ids |
| Scrape.MissingIdsCollapse | popup.js:18 | elements without an id all collapse into the first one's record |
| Scrape.ListingDropsDuplicate | popup.js:26-28 | of two elements with the same id, only the first is kept |
| Scrape.CarouselRecords | popup.js:126-136 | one record per carousel item, in document order |
| Scrape.ScrapeCarousel | popup.js:138-158 | no file and the failure message exactly when there is no item; otherwise the count message for every item |
| Scrape.CarouselRows | popup.js:143-148 | the carousel CSV reads back as the header and exactly one row per item, duplicates included |
| Scrape.StarCell | popup.js:121-124 | a star count of 0 gives an empty cell; otherwise the cell is the quoted decimal count |

## Left out

- Browser extension wiring is not modelled: `chrome.tabs.query`, `chrome.scripting.executeScript` and the click listeners are outside the program's logic.
- DOM queries are not modelled. Each element is a record of its lookups (`ListingElement`, `CarouselElement`), where `None` means a missing element or attribute. The pages, next-control states and scroll heights are input sequences.
- Delays and async timing are not modelled. Each loop step is atomic.
- The file download (Blob, object URL, anchor click) is not modelled. The CSV text is the result.
- Status toasts keep only the kind of message shown, not their styling or removal timer.
- The button-3 link to the store's review page is not modelled. It depends on browser URL parsing and tab creation.
- Both loops are `while (true)` and may never end on a live page. The model requires that the input sequences contain a stopping point (`FirstLastPage(pages) < |pages|`, `FirstStable(heights) < |heights|`, `Finishes`), so non-termination is not modelled.
- Scrape.ScrapeListing: each loop sees the pages and heights in the order given, so DOM changes caused by the click and scroll themselves are represented only by those inputs.
- Records.StarRating: the carousel stores the star count as a number. The model stores its decimal text, which `String(...)` in escaping turns into the same cell.
- Csv.Escape: its contract does not spell out the quoted cell character by character. What the quoting means is stated through the reader, by `UnescapeEscape`, `LineRoundTrip` and `CsvRoundTrip`.
- Text is modelled as sequences of characters. Unicode and `innerText` rendering are not modelled.
