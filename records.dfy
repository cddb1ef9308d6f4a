/**
 * The review record and the two field mappings that build it from a widget
 * element: the listing mapping (`.jdgm-rev` elements) and the carousel
 * mapping (`.jdgm-carousel-item` elements). The page itself is not modelled:
 * every lookup the extractor makes on an element (an attribute, the text of a
 * sub-element, an image source) is an input, `None` when the attribute or the
 * sub-element is missing.
 */
module Records {

  datatype Option<T> = None | Some(value: T)

  /** One exported review: the eight CSV columns, all of them text. */
  datatype Review = Review(
    id: string,
    name: string,
    date: string,
    rating: string,
    title: string,
    body: string,
    product: string,
    image: string)

  /** JavaScript's `x || ''` on a lookup that yields a string, null or undefined. */
  function OrEmpty(o: Option<string>): string
  {
    if o.Some? then o.value else ""
  }

  /** JavaScript's `a || b || ''`: a missing or empty `a` falls through to `b`. */
  function OrElse(a: Option<string>, b: Option<string>): (r: string)
    ensures a.Some? && a.value != "" ==> r == a.value
    ensures (a.None? || a.value == "") ==> r == OrEmpty(b)
  {
    if a.Some? && a.value != "" then a.value else OrEmpty(b)
  }

  /** `s.replace(/\n/g, ' ')`: every line feed becomes a space, nothing else moves. */
  function ReplaceNewlines(s: string): (r: string)
    ensures |r| == |s|
    ensures forall i :: 0 <= i < |s| ==> r[i] == (if s[i] == '\n' then ' ' else s[i])
    ensures '\n' !in r
  {
    if s == [] then [] else [if s[0] == '\n' then ' ' else s[0]] + ReplaceNewlines(s[1..])
  }

  /** The lookups the listing extractor makes on one `.jdgm-rev` element. */
  datatype ListingElement = ListingElement(
    reviewId: Option<string>,      // attribute data-review-id
    author: Option<string>,        // text of .jdgm-rev__author
    timestamp: Option<string>,     // text of .jdgm-rev__timestamp
    score: Option<string>,         // attribute data-score of .jdgm-rev__rating (None also when that element is missing)
    title: Option<string>,         // text of .jdgm-rev__title
    body: Option<string>,          // text of .jdgm-rev__body
    productTitle: Option<string>,  // attribute data-product-title
    productLink: Option<string>,   // text of .jdgm-rev__prod-link
    picture: Option<string>)       // src of .jdgm-rev__pic-img

  /**
   * The listing field mapping: a missing lookup becomes the empty string, the
   * body has its line feeds turned into spaces, and the product falls back to
   * the product link's text when the data-product-title attribute is missing
   * or empty.
   */
  function ExtractListing(el: ListingElement): (r: Review)
    ensures r.id == OrEmpty(el.reviewId)
    ensures r.id == "" <==> el.reviewId.None? || el.reviewId.value == ""
    ensures r.name == OrEmpty(el.author) && r.date == OrEmpty(el.timestamp)
    ensures r.rating == OrEmpty(el.score) && r.title == OrEmpty(el.title)
    ensures r.image == OrEmpty(el.picture)
    ensures '\n' !in r.body && |r.body| == |OrEmpty(el.body)|
    ensures forall i :: 0 <= i < |r.body| ==> r.body[i] == (if OrEmpty(el.body)[i] == '\n' then ' ' else OrEmpty(el.body)[i])
    ensures r.product == OrElse(el.productTitle, el.productLink)
    ensures r.product == "" <==> (el.productTitle.None? || el.productTitle.value == "") && (el.productLink.None? || el.productLink.value == "")
  {
    Review(
      id := OrEmpty(el.reviewId),
      name := OrEmpty(el.author),
      date := OrEmpty(el.timestamp),
      rating := OrEmpty(el.score),
      title := OrEmpty(el.title),
      body := if el.body.Some? then ReplaceNewlines(el.body.value) else "",
      product := OrElse(el.productTitle, el.productLink),
      image := OrEmpty(el.picture))
  }

  /** The records of one page, in document order. */
  function ExtractAll(els: seq<ListingElement>): (rs: seq<Review>)
    ensures |rs| == |els|
    ensures forall i :: 0 <= i < |els| ==> rs[i] == ExtractListing(els[i])
  {
    seq(|els|, i requires 0 <= i < |els| => ExtractListing(els[i]))
  }

  /** The decimal digit for 0 <= d < 10. */
  function Digit(d: nat): (c: char)
    requires d < 10
    ensures '0' <= c <= '9'
  {
    "0123456789"[d]
  }

  /** JavaScript's `String(n)` for a non-negative integer: its decimal digits, no leading zero. */
  function NatToDecimal(n: nat): (s: string)
    ensures |s| > 0
    ensures forall i :: 0 <= i < |s| ==> '0' <= s[i] <= '9'
    ensures n > 0 ==> s[0] != '0'
    decreases n
  {
    if n < 10 then [Digit(n)] else NatToDecimal(n / 10) + [Digit(n % 10)]
  }

  /** The number a string of decimal digits denotes: the partner of NatToDecimal. */
  function DecimalValue(s: string): nat
    requires forall i :: 0 <= i < |s| ==> '0' <= s[i] <= '9'
  {
    if s == [] then 0 else 10 * DecimalValue(s[..|s| - 1]) + (s[|s| - 1] as int - '0' as int)
  }

  lemma {:induction false} DecimalRoundTrip(n: nat)
    ensures DecimalValue(NatToDecimal(n)) == n
    decreases n
  {
    var s := NatToDecimal(n);
    if n >= 10 {
      DecimalRoundTrip(n / 10);
      assert s[..|s| - 1] == NatToDecimal(n / 10);
    }
  }

  /** The lookups the carousel extractor makes on one `.jdgm-carousel-item` element. */
  datatype CarouselElement = CarouselElement(
    reviewId: Option<string>,      // attribute data-review-id
    productImage: Option<string>,  // src of .jdgm-carousel-item__product-image
    starsOn: nat,                  // number of .jdgm-star.jdgm--on elements
    reviewTitle: Option<string>,   // text of .jdgm-carousel-item__review-title
    reviewBody: Option<string>,    // text of .jdgm-carousel-item__review-body
    reviewerName: Option<string>,  // text of .jdgm-carousel-item__reviewer-name
    productTitle: Option<string>,  // text of .jdgm-carousel-item__product-title
    timestamp: Option<string>)     // attribute data-time of .jdgm-carousel-item__timestamp

  /** `count || ''`: no lit star gives the empty text, otherwise the count in decimal. */
  function StarRating(count: nat): (r: string)
    ensures r == "" <==> count == 0
    ensures count > 0 ==> (forall i :: 0 <= i < |r| ==> '0' <= r[i] <= '9') && DecimalValue(r) == count
  {
    if count == 0 then "" else (DecimalRoundTrip(count); NatToDecimal(count))
  }

  /** The carousel field mapping: the same record shape, the rating counted from stars. */
  function ExtractCarousel(el: CarouselElement): (r: Review)
    ensures r.id == OrEmpty(el.reviewId) && r.name == OrEmpty(el.reviewerName)
    ensures r.date == OrEmpty(el.timestamp) && r.title == OrEmpty(el.reviewTitle)
    ensures r.product == OrEmpty(el.productTitle) && r.image == OrEmpty(el.productImage)
    ensures r.rating == StarRating(el.starsOn)
    ensures r.rating == "" <==> el.starsOn == 0
    ensures '\n' !in r.body && |r.body| == |OrEmpty(el.reviewBody)|
    ensures forall i :: 0 <= i < |r.body| ==> r.body[i] == (if OrEmpty(el.reviewBody)[i] == '\n' then ' ' else OrEmpty(el.reviewBody)[i])
  {
    Review(
      id := OrEmpty(el.reviewId),
      name := OrEmpty(el.reviewerName),
      date := OrEmpty(el.timestamp),
      rating := StarRating(el.starsOn),
      title := OrEmpty(el.reviewTitle),
      body := if el.reviewBody.Some? then ReplaceNewlines(el.reviewBody.value) else "",
      product := OrEmpty(el.productTitle),
      image := OrEmpty(el.productImage))
  }
}
