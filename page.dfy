/**
 * The data the scraper works on. A fetched HTML page is reduced to the pieces
 * the extraction code looks up; a lookup that can come back empty in
 * BeautifulSoup is an `Option` here. The network and URL resolution are the
 * two functions of a `Web`.
 */
module Page {
  import opened Wrappers

  /** The catalogue root the crawl starts from. */
  const BaseUrl: string := "https://books.toscrape.com/"

  /** The site's fixed page size. */
  const MaxBooksPerPage: nat := 20

  /** An `a` element: its `href` attribute, if it has one, and its text. */
  datatype Anchor = Anchor(href: Option<string>, text: string)

  /** Where a detail page's description is, if anywhere. */
  datatype DescriptionSlot =
    | NoMarker                      // no element with id `product_description`
    | MarkerOnly                    // the marker, but no `p` sibling after it
    | MarkerThen(paragraph: string) // the text of the `p` sibling after the marker

  /** A parsed page, as the scraper reads it. */
  datatype Doc = Doc(
    navAnchors: Option<seq<Anchor>>,   // every `a` inside `ul.nav-list`; None when that list is absent
    bookCount: Option<string>,         // text of `strong` inside `form.form-horizontal`
    productPods: seq<Option<Anchor>>,  // per `article.product_pod`, its first `a`
    heading: Option<string>,           // text of the first `h1`
    priceText: Option<string>,         // text of `p.price_color`
    ratingClasses: Option<seq<string>>,// class list of `p.star-rating`
    description: DescriptionSlot,
    firstCell: Option<string>)         // text of the first `td`

  /**
   * The outside world: `fetch(url)` is a GET followed by parsing, `None` when
   * the request raises a `RequestException` (including the `HTTPError` of a 4xx or 5xx status);
   * `join(base, ref)` is `urljoin`, left uninterpreted.
   */
  datatype Web = Web(fetch: string -> Option<Doc>, join: (string, string) -> string)

  datatype Category = Category(pageUrl: string, name: string)

  datatype Book = Book(
    category: string,
    title: string,
    price: string,
    rating: string,
    description: string,
    upc: string)

  /** The exceptions extraction can raise; none of them is caught anywhere. */
  datatype Failure =
    | MissingElement(selector: string)  // AttributeError/TypeError: a lookup found nothing
    | MissingAttribute(name: string)    // KeyError: the element lacks the attribute
    | IndexOutOfRange                   // IndexError: the rating class list is too short
    | NotAnInteger(text: string)        // ValueError from `int()`
}
