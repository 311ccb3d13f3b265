# books-scrapper crawl core, modelled in Dafny

This project models the crawl-and-extract core of the books.toscrape.com
scraper in `app/main.py`:

- category discovery from the navigation list of the root page;
- the page count of a category (`ceil(count / 20)`);
- extraction of one book record from a detail page;
- the crawl over product blocks, listing pages and categories.

The crawl skips a unit of work whose HTTP request fails. Every other
exception aborts the whole run.

The world outside the program is a `Page.Web` value with two functions:

- `fetch(url)`: `requests.get` followed by BeautifulSoup parsing. It gives
  `None` when the request raises a `RequestException`, which includes
  the `HTTPError` that `raise_for_status` raises on a 4xx or 5xx reply.
- `join(base, ref)`: `urljoin`, left uninterpreted.

A parsed page is a `Page.Doc` holding the pieces the code looks up:

- the navigation anchors;
- the book-count text;
- the first anchor of each product block;
- the `h1` text and the price text;
- the star-rating class list;
- the description marker and the paragraph after it;
- the first `td` text.

Where BeautifulSoup's `find` can come back empty, the piece is an `Option`.
Using an absent piece is an error (`Page.Failure`). The error is an `Err`
result that propagates to the top: only `RequestException` is caught in
the source, so AttributeError, TypeError, KeyError, IndexError and
ValueError all escape `get_all_books`.

Modules:

- `Wrappers`: `Option` and `Result`.
- `Text`: `str.strip`, a digits-only `int()`, and `str(n)`.
- `Page`: the data model.
- `Extract`: `get_categories`, `get_pages_count`, `get_book_info`.
- `Accumulate`: the accumulation shared by the three loops. `Extend` is
  "`extend` unless an exception was raised": the first failure wins, and
  the result does not depend on any unit after it. `Gather` folds `Extend` over the results of
  a sequence of units of work, in order.
- `Crawl`: `get_books_by_page`, `get_books_by_category`, `get_all_books`
  and the data flow of `main`. The scraper's call tree is one recursive
  function, `Crawl.Scrape`, over a `Crawl.Job`: a product block, the blocks
  of one listing page, a numbered listing page, a category, or the list of
  categories. `ItemBooks`, `BooksOnPage`, `PageBooks`, `BooksOfCategory` and
  `AllBooks` name the jobs of the scraper's functions. A method with the
  source's loop is proved to compute the same result as the matching
  function.

## Behaviour worth knowing

- The price clean-up `replace('Â£', '')` is one left-to-right pass, so it
  does not always leave a price free of the artifact. `ÂÂ££` becomes `Â£`
  (`Extract.StripArtifactSinglePass`). The model follows the code. It proves
  the artifact is gone whenever every `Â` in the text is the first half of
  a `Â£` pair (`Extract.StripArtifactRemovesAll`). The site's own prices,
  such as `Â£51.77`, are of that kind.
- A scraper of this kind would be expected to lose only one item, one page
  or one category to a bad page. The code catches only `RequestException`,
  so a product block without a link, a detail page missing its `h1`, a
  category page without a book count or a non-numeric count aborts the
  whole crawl. The model follows the code. `Crawl.ItemBooks` makes a missing
  link or a failed extraction the block's error, `Crawl.BooksOnPageShape`
  and `Crawl.BooksOnPagePrefixFails` carry it to the page,
  `Crawl.BooksOfCategoryPages` to the category, and `Crawl.AllBooksShape`
  and `Crawl.AllBooksPrefixFails` to the whole run.
- A page count would be expected to be at least 1. With a book count of 0
  the code computes 0 pages. It then reads page 1 only, exactly as for 1
  page (`Crawl.CategorySinglePage`).

## Model

| member | source | states |
|---|---|---|
| `Text.Strip` | app/main.py:25 | `str.strip()`: the result is no longer than the input and neither starts nor ends with whitespace (Python's `isspace` set) |
| `Text.StripInfix` | app/main.py:25 | what `str.strip()` keeps is the part of the input between a whitespace-only prefix and a whitespace-only suffix |
| `Text.Decimal` | app/main.py:88 | `str(i)` of a page number is a non-empty string of decimal digits, with no leading zero unless the number is 0 |
| `Text.DecimalRoundTrip` | app/main.py:88 | parsing the printed page number gives back the number |
| `Text.DecimalInjective` | app/main.py:87-88 | distinct page numbers print differently |
| `Extract.PagesFor` | app/main.py:37-38 | the page count `p` for `count` books is the ceiling of count/20: `(p-1)*20 < count <= p*20`, so 0 gives 0, 20 gives 1 and 21 gives 2 |
| `Extract.PagesCount` | app/main.py:34-38 | an absent count element is an error; the result is a page count exactly when the stripped count text is a decimal number, and that count is the ceiling of the number over 20 |
| `Extract.StripArtifact` | app/main.py:43 | removing `Â£` drops only `Â` and `£` characters: every other character keeps its number of occurrences |
| `Extract.StripArtifactOfArtifact` | app/main.py:43 | `Â£` on its own is removed entirely |
| `Extract.StripArtifactAppend` | app/main.py:43 | cleaning `a + b`, cut where no `Â£` is split, cleans `a` and `b` in place and in order; with the two lemmas around it this fixes the result on every input |
| `Extract.StripArtifactKeepsClean` | app/main.py:43 | a price without `Â£` is unchanged |
| `Extract.StripArtifactRemovesAll` | app/main.py:43 | when every `Â` is the start of a `Â£` pair, the cleaned price holds no `Â` and no `Â£` |
| `Extract.StripArtifactExample` | app/main.py:43 | `Â£51.77` becomes `51.77` |
| `Extract.StripArtifactSinglePass` | app/main.py:43 | `ÂÂ££` becomes `Â£`, which still holds the artifact |
| `Extract.BookInfo` | app/main.py:41-58 | a record is produced exactly when the heading, price, a rating class list of length at least 2 and the first cell exist, and the description marker is either absent or followed by a paragraph. The record's category is the category's name, its title is the heading text, its price is the cleaned price, its rating is class token 1 and its upc is the first cell. Its description is `----` when the marker is absent and the paragraph's text otherwise |
| `Extract.CategoriesOf` | app/main.py:22-28 | the comprehension succeeds exactly when every anchor has an `href`; it then gives one category per anchor, in order, named by the stripped anchor text and located at `urljoin(base_url, href)` |
| `Extract.Categories` | app/main.py:16-31 | a failed root fetch gives no categories; a root without the navigation list is an error; otherwise N anchors give N-1 categories, category i-1 coming from anchor i |
| `Accumulate.Extend` | app/main.py:94 | extending by nothing leaves the accumulated result unchanged, and extending nothing gives the extension |
| `Accumulate.ExtendAssoc` | app/main.py:94 | extending by two results one after the other is extending by their combination |
| `Accumulate.GatherAppend` | app/main.py:87-97 | working through units `a + b` gives the result of `a` extended by that of `b`, the first error winning |
| `Accumulate.GatherSkipsEmpty` | app/main.py:95-97 | a unit that yields nothing and raises nothing can be left out without changing the result |
| `Accumulate.GatherPrefixFails` | app/main.py:104-109 | once the first k units have raised, the whole run fails with the first error |
| `Accumulate.GatherShape` | app/main.py:104-109 | the run succeeds exactly when every unit does, and then its length is the sum of the units' record counts |
| `Crawl.Scrape` | app/main.py:61-109 | the scraper's call tree, one case per function; it has no contract of its own, and each case's behaviour is stated by the rows for `ItemBooks`, `BooksOnPageShape`, `PageBooks`, `BooksOfCategoryPages` and `AllBooksShape` |
| `Crawl.ItemUrl` | app/main.py:65 | the detail URL is an error exactly when the block has no anchor or the anchor no `href`, and is otherwise `urljoin(category URL, href)` |
| `Crawl.ItemBooks` | app/main.py:64-72 | a product block without a link raises that error; a block whose detail page is fetched yields the one record `get_book_info` extracts from it, or raises its error; it contributes no record exactly when its detail fetch fails; every record is tagged with the category |
| `Crawl.BooksOnPage` | app/main.py:61-73 | `get_books_by_page`: the product blocks' results gathered in page order; no contract of its own, stated by `BooksOnPageShape`, `BooksOnPageAppend` and `BooksOnPageAllFetched` |
| `Crawl.BooksOnPageShape` | app/main.py:61-73 | a listing page succeeds exactly when none of its blocks raises; its record count plus the number of failed detail fetches equals the number of blocks; every record carries the category's name |
| `Crawl.BooksOnPageAppend` | app/main.py:63-73 | the records of a page are those of its first blocks followed by those of the remaining blocks, and the first error wins |
| `Crawl.BooksOnPageSkipsFailedItem` | app/main.py:66-72 | a block whose detail fetch fails removes exactly its own record: the page yields the records before it followed by those after it |
| `Crawl.BooksOnPagePrefixFails` | app/main.py:70 | once the first k blocks have raised, the page fails with the first error |
| `Crawl.BooksOnPageAllFetched` | app/main.py:63-73 | when every detail page is fetched and complete, record i is the record extracted from block i's own detail page, one per block |
| `Crawl.PageRef` | app/main.py:88 | the reference of listing page i starts with `page-`, ends with `.html` and has at least one character between them |
| `Crawl.PageRefInjective` | app/main.py:87-88 | distinct page numbers give distinct page references |
| `Crawl.PageUrl` | app/main.py:88 | `urljoin(category URL, "page-<i>.html")`; no contract of its own, the reference it joins is stated by `PageRef` and `PageRefInjective` |
| `Crawl.PageBooks` | app/main.py:88-97 | a listing page whose fetch fails contributes nothing; a fetched listing page contributes exactly what `get_books_by_page` yields for its product blocks |
| `Crawl.LaterPages` | app/main.py:87-97 | the records of listing pages lo..hi in page order; no contract of its own, stated by `LaterPagesSplit`, `LaterPagesSkipsFailedPage`, `LaterPagesSnoc` and `LaterPagesTagged` |
| `Crawl.LaterPagesSplit` | app/main.py:87-97 | pages lo..hi yield pages lo..m-1 followed by pages m..hi, in increasing page order |
| `Crawl.LaterPagesSkipsFailedPage` | app/main.py:89-97 | a failed page i contributes nothing, and pages i+1 onward are still fetched and contribute their records |
| `Crawl.LaterPagesSnoc` | app/main.py:87-94 | one turn of the page loop: reading page i after pages lo..i-1 extends their records by what page i contributes |
| `Crawl.LaterPagesPrefixFails` | app/main.py:87-97 | once the records so far and pages lo..i have raised, what pages after i contribute does not change the result, which is the first error |
| `Crawl.LaterPagesTagged` | app/main.py:93-94 | every record of pages lo..hi carries the category's name |
| `Crawl.BooksOfCategory` | app/main.py:77-101 | a failed first listing fetch gives `[]` |
| `Crawl.BooksOfCategoryPages` | app/main.py:81-98 | once the first listing page is fetched, a page-count error is the category's error; otherwise the result is page 1's records followed by those of pages 2..count |
| `Crawl.BooksOfCategoryTagged` | app/main.py:76-101 | every record of a category carries the category's name |
| `Crawl.CategorySinglePage` | app/main.py:85-86 | with a page count of at most 1, only page 1 is read |
| `Crawl.CategorySkipsFailedPage` | app/main.py:87-97 | a failed fetch of page i drops that page only: pages 1..i-1 followed by pages i+1..count |
| `Crawl.CategoryPageTwoOfThreeFails` | app/main.py:87-97 | in a three-page category whose page 2 cannot be fetched, the records are page 1's followed by page 3's |
| `Crawl.AllBooks` | app/main.py:104-109 | `get_all_books`: the categories' results gathered in order; no contract of its own, stated by `AllBooksShape`, `AllBooksTagged` and `AllBooksAppend` |
| `Crawl.AllBooksShape` | app/main.py:104-109 | the run succeeds exactly when every category does, and its length is the sum of the categories' record counts |
| `Crawl.AllBooksTagged` | app/main.py:104-109 | every record of the run carries the name of one of the categories |
| `Crawl.AllBooksAppend` | app/main.py:104-109 | the records of categories a + b are those of a followed by those of b |
| `Crawl.AllBooksPrefixFails` | app/main.py:107 | once the first k categories have raised, the run fails with the first error |
| `Crawl.AllBooksTwoCategories` | app/main.py:104-109 | categories yielding [a1, a2] and [b1] give [a1, a2, b1] |
| `Crawl.Run` | app/main.py:154-159 | a failed root fetch exports nothing; the run succeeds exactly when the categories and all their records are extracted; after a successful run, something is exported exactly when at least one category was found, and it is the records of all categories |
| `Crawl.GetBooksByPage` | app/main.py:61-73 | the `for`/`append` loop returns exactly `BooksOnPage` of the page's blocks |
| `Crawl.GetBooksByCategory` | app/main.py:76-101 | the page loop with `extend` returns exactly `BooksOfCategory` |
| `Crawl.GetAllBooks` | app/main.py:104-109 | the category loop with `extend` returns exactly `AllBooks` |

## Left out

- HTTP transport (`requests.get`, the `Accept` and `User-Agent` headers, `raise_for_status`) is the `fetch` function of `Page.Web`. Its `None` stands for any `RequestException`.
- HTML parsing (BeautifulSoup `find`, `find_all`, `find_next_sibling`, lxml) is replaced by the pre-located fields of `Page.Doc`. Which element a selector finds is not modelled.
- `urljoin` is the uninterpreted `join` of `Page.Web`. RFC 3986 resolution is not modelled, so nothing is proved about the URLs being absolute or non-empty.
- `Extract.PagesCount`: `int()` is modelled on ASCII decimal digits only. Python would also accept a sign, underscores between digits and non-ASCII digits. In Python a negative count would give `ceil(count / 20)` pages: 0 for -1 to -19 and a negative number from -20 down. Only page 1 would then be read, because `range(2, pages_count + 1)` is empty. Here a signed count is an error.
- `Extract.PagesFor`: the float division in `ceil(count / 20)` is modelled as exact integer ceiling division. Float rounding of very large counts is not modelled, nor the `OverflowError` that `count / 20` raises for a count too large for a float; the model gives a page count there.
- The aliasing of `books` and `first_page_books` in `get_books_by_category` has no observable effect, because `first_page_books` is not read again. The model keeps one sequence.
- The `print` logging of every caught exception is console output with no effect on the result.
- `write_to_csv` and `write_to_excel` (app/main.py:112-151) are file and openpyxl I/O. `Crawl.Run` stops at the records they would write.
- The `__main__` entry point is process wiring.
