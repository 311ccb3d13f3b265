/**
 * The crawl: every product block of a listing page, every listing page of a
 * category, every category. A failed fetch skips exactly the unit it was
 * for; an extraction error is never caught and ends the whole run.
 *
 * Each level is `Gather` over the results of its units, in order; the
 * methods at the end are the scraper's loops, proved to compute the same.
 */
module Crawl {
  import opened Wrappers
  import opened Text
  import opened Page
  import opened Extract
  import opened Accumulate

  predicate AllFrom(books: seq<Book>, category: Category) {
    AllNamed(books, {category.name})
  }

  /**
   * The detail URL of a product block: the `href` of its first anchor,
   * resolved against the category URL. A block without an anchor, or an
   * anchor without `href`, raises.
   */
  function ItemUrl(web: Web, pod: Option<Anchor>, category: Category): (r: Result<string, Failure>)
    ensures r.Ok? <==> pod.Some? && pod.value.href.Some?
    ensures r.Ok? ==> r.value == web.join(category.pageUrl, pod.value.href.value)
    ensures pod.None? ==> r == Err(MissingElement("article.product_pod a"))
  {
    match pod
    case None => Err(MissingElement("article.product_pod a"))
    case Some(anchor) =>
      match anchor.href
      case None => Err(MissingAttribute("href"))
      case Some(href) => Ok(web.join(category.pageUrl, href))
  }

  /** The detail page of this product block could not be fetched. */
  predicate ItemFetchFails(web: Web, pod: Option<Anchor>, category: Category) {
    var url := ItemUrl(web, pod, category);
    url.Ok? && web.fetch(url.value).None?
  }

  // ---------------------------------------------------------------------
  // The scraper's call tree
  // ---------------------------------------------------------------------

  /**
   * The unit of work of each of the scraper's functions: one product block
   * (`get_book_info` on its detail page), the product blocks of a fetched
   * listing page (`get_books_by_page`), listing page `number` of a category,
   * fetched first, a whole category (`get_books_by_category`) and the list
   * of categories (`get_all_books`).
   *
   * The five functions are one function over a job, rather than one Dafny
   * function each, so that they form a single recursive group: the verifier
   * then unfolds a call in this group only a bounded number of times, where
   * a chain of separate functions would be unfolded down to the product
   * blocks every time a category or the whole run is mentioned.
   * `ItemBooks`, `BooksOnPage`, `PageBooks`, `BooksOfCategory` and
   * `AllBooks` give each job its own name.
   */
  datatype Job =
    | Item(category: Category, pod: Option<Anchor>)
    | Listing(category: Category, pods: seq<Option<Anchor>>)
    | ListingPage(category: Category, number: nat)
    | Whole(category: Category)
    | Site(categories: seq<Category>)

  /** How deep in the scraper's call tree a job sits. */
  function Depth(job: Job): nat {
    match job
    case Item(_, _) => 0
    case Listing(_, _) => 1
    case ListingPage(_, _) => 2
    case Whole(_) => 3
    case Site(_) => 4
  }

  /**
   * The records a job yields. A failed fetch yields nothing for the unit it
   * was for; an extraction error is the job's result and, through `Gather`,
   * the result of every job above it.
   */
  function Scrape(web: Web, job: Job): Books
    decreases Depth(job), 1, 0
  {
    match job
    case Item(category, pod) =>
      var url :- ItemUrl(web, pod, category);
      (match web.fetch(url)
       case None => Ok([])
       case Some(detail) =>
         var book :- BookInfo(detail, category);
         Ok([book]))
    case Listing(category, pods) =>
      Gather(ItemResults(web, pods, category))
    case ListingPage(category, i) =>
      (match web.fetch(PageUrl(web, category, i))
       case None => Ok([])
       case Some(page) => Scrape(web, Listing(category, page.productPods)))
    case Whole(category) =>
      (match web.fetch(category.pageUrl)
       case None => Ok([])
       case Some(first) =>
         var count :- PagesCount(first);
         var books := Scrape(web, Listing(category, first.productPods));
         if books.Err? || count == 1 then books
         else Extend(books, Gather(PageResults(web, category, 2, count))))
    case Site(categories) =>
      Gather(CategoryResults(web, categories))
  }

  /** The results of the product blocks `pods`, in page order. */
  function ItemResults(web: Web, pods: seq<Option<Anchor>>, category: Category): (rs: seq<Books>)
    ensures |rs| == |pods|
    decreases 1, 0, |pods|
  {
    if pods == [] then []
    else ItemResults(web, pods[..|pods| - 1], category) + [Scrape(web, Item(category, pods[|pods| - 1]))]
  }

  /** The results of listing pages `lo..hi`, in page order. */
  function PageResults(web: Web, category: Category, lo: nat, hi: int): (rs: seq<Books>)
    ensures |rs| == if hi < lo then 0 else hi - lo + 1
    decreases 3, 0, if hi < lo then 0 else hi - lo + 1
  {
    if hi < lo then []
    else PageResults(web, category, lo, hi - 1) + [Scrape(web, ListingPage(category, hi))]
  }

  /** The results of the categories, in order. */
  function CategoryResults(web: Web, categories: seq<Category>): (rs: seq<Books>)
    ensures |rs| == |categories|
    decreases 4, 0, |categories|
  {
    if categories == [] then []
    else CategoryResults(web, categories[..|categories| - 1]) + [Scrape(web, Whole(categories[|categories| - 1]))]
  }

  // ---------------------------------------------------------------------
  // One listing page: get_books_by_page
  // ---------------------------------------------------------------------

  /**
   * What one product block contributes: nothing when its detail fetch
   * fails, its record otherwise; a block without a link, or a detail page
   * the record cannot be extracted from, raises.
   */
  function ItemBooks(web: Web, pod: Option<Anchor>, category: Category): (r: Books)
    ensures r == Ok([]) <==> ItemFetchFails(web, pod, category)
    ensures r.Ok? ==> |r.value| <= 1 && AllFrom(r.value, category)
    ensures ItemUrl(web, pod, category).Err? ==> r == Err(ItemUrl(web, pod, category).error)
    ensures ItemUrl(web, pod, category).Ok? && web.fetch(ItemUrl(web, pod, category).value).Some? ==>
      var b := BookInfo(web.fetch(ItemUrl(web, pod, category).value).value, category);
      r == if b.Ok? then Ok([b.value]) else Err(b.error)
  {
    Scrape(web, Item(category, pod))
  }

  /** The records of one listing page: those of its product blocks, in page order. */
  function BooksOnPage(web: Web, pods: seq<Option<Anchor>>, category: Category): Books {
    Scrape(web, Listing(category, pods))
  }

  lemma {:induction false} ItemResultsAppend(web: Web, a: seq<Option<Anchor>>, b: seq<Option<Anchor>>, category: Category)
    ensures ItemResults(web, a + b, category) == ItemResults(web, a, category) + ItemResults(web, b, category)
    decreases |b|
  {
    if b == [] {
      assert a + b == a;
    } else {
      var init := b[..|b| - 1];
      assert (a + b)[..|a + b| - 1] == a + init;
      assert (a + b)[|a + b| - 1] == b[|b| - 1];
      ItemResultsAppend(web, a, init, category);
    }
  }

  lemma {:induction false} ItemResultsAt(web: Web, pods: seq<Option<Anchor>>, category: Category)
    ensures forall i :: 0 <= i < |pods| ==> ItemResults(web, pods, category)[i] == ItemBooks(web, pods[i], category)
  {
    if pods != [] {
      var init := pods[..|pods| - 1];
      ItemResultsAt(web, init, category);
      assert forall i :: 0 <= i < |init| ==> init[i] == pods[i];
    }
  }

  /** How many product blocks of `pods` have a detail page that cannot be fetched. */
  function FailedFetches(web: Web, pods: seq<Option<Anchor>>, category: Category): nat {
    if pods == [] then 0
    else FailedFetches(web, pods[..|pods| - 1], category)
         + (if ItemFetchFails(web, pods[|pods| - 1], category) then 1 else 0)
  }

  lemma {:induction false} FailedFetchesAreEmpties(web: Web, pods: seq<Option<Anchor>>, category: Category)
    ensures FailedFetches(web, pods, category) == Empties(ItemResults(web, pods, category))
  {
    if pods != [] {
      var init := pods[..|pods| - 1];
      var x := ItemBooks(web, pods[|pods| - 1], category);
      assert ItemResults(web, pods, category) == ItemResults(web, init, category) + [x];
      assert (ItemResults(web, init, category) + [x])[..|pods| - 1] == ItemResults(web, init, category);
      FailedFetchesAreEmpties(web, init, category);
    }
  }

  /**
   * A listing page fails exactly when one of its blocks raises. Otherwise it
   * holds one record per product block whose detail fetch succeeded, each
   * tagged with the category.
   */
  lemma BooksOnPageShape(web: Web, pods: seq<Option<Anchor>>, category: Category)
    ensures BooksOnPage(web, pods, category).Ok?
        <==> forall i :: 0 <= i < |pods| ==> ItemBooks(web, pods[i], category).Ok?
    ensures BooksOnPage(web, pods, category).Ok? ==>
      |BooksOnPage(web, pods, category).value| + FailedFetches(web, pods, category) == |pods|
    ensures BooksOnPage(web, pods, category).Ok? ==> AllFrom(BooksOnPage(web, pods, category).value, category)
  {
    var rs := ItemResults(web, pods, category);
    ItemResultsAt(web, pods, category);
    GatherShape(rs);
    GatherNamed(rs, {category.name});
    FailedFetchesAreEmpties(web, pods, category);
    if Gather(rs).Ok? {
      TotalOfSingles(rs);
    }
  }

  /** The records of a page are those of its first blocks followed by those of the rest. */
  lemma BooksOnPageAppend(web: Web, a: seq<Option<Anchor>>, b: seq<Option<Anchor>>, category: Category)
    ensures BooksOnPage(web, a + b, category)
         == Extend(BooksOnPage(web, a, category), BooksOnPage(web, b, category))
  {
    ItemResultsAppend(web, a, b, category);
    GatherAppend(ItemResults(web, a, category), ItemResults(web, b, category));
  }

  /**
   * A product block whose detail fetch fails removes exactly its own record:
   * the page yields the records of the blocks before it followed by those
   * of the blocks after it.
   */
  lemma BooksOnPageSkipsFailedItem(web: Web, before: seq<Option<Anchor>>, pod: Option<Anchor>,
                                   after: seq<Option<Anchor>>, category: Category)
    requires ItemFetchFails(web, pod, category)
    ensures BooksOnPage(web, before + [pod] + after, category)
         == Extend(BooksOnPage(web, before, category), BooksOnPage(web, after, category))
  {
    var x := ItemBooks(web, pod, category);
    ItemResultsAppend(web, before + [pod], after, category);
    assert ItemResults(web, before + [pod], category) == ItemResults(web, before, category) + [x];
    GatherSkipsEmpty(ItemResults(web, before, category), x, ItemResults(web, after, category));
  }

  /** Once a prefix of the blocks has raised, the page has raised with that error. */
  lemma BooksOnPagePrefixFails(web: Web, pods: seq<Option<Anchor>>, k: nat, category: Category)
    requires k <= |pods|
    requires BooksOnPage(web, pods[..k], category).Err?
    ensures BooksOnPage(web, pods, category) == BooksOnPage(web, pods[..k], category)
  {
    assert pods == pods[..k] + pods[k..];
    ItemResultsAppend(web, pods[..k], pods[k..], category);
    assert ItemResults(web, pods, category)[..k] == ItemResults(web, pods[..k], category);
    GatherPrefixFails(ItemResults(web, pods, category), k);
  }

  /** The block's detail page is fetched and every field it needs is there. */
  predicate ItemExtracts(web: Web, pod: Option<Anchor>, category: Category) {
    var url := ItemUrl(web, pod, category);
    url.Ok? && web.fetch(url.value).Some? && BookInfo(web.fetch(url.value).value, category).Ok?
  }

  /** The record of a block whose detail page is fetched and complete. */
  function ItemRecord(web: Web, pod: Option<Anchor>, category: Category): Book
    requires ItemExtracts(web, pod, category)
  {
    BookInfo(web.fetch(ItemUrl(web, pod, category).value).value, category).value
  }

  /**
   * When every detail page is fetched and complete, the page yields exactly
   * one record per product block, each extracted from that block's own
   * detail page, in page order.
   */
  lemma {:induction false} BooksOnPageAllFetched(web: Web, pods: seq<Option<Anchor>>, category: Category)
    requires forall i :: 0 <= i < |pods| ==> ItemExtracts(web, pods[i], category)
    ensures BooksOnPage(web, pods, category).Ok?
    ensures |BooksOnPage(web, pods, category).value| == |pods|
    ensures forall i :: 0 <= i < |pods| ==>
      BooksOnPage(web, pods, category).value[i] == ItemRecord(web, pods[i], category)
  {
    if pods != [] {
      var init := pods[..|pods| - 1];
      var last := pods[|pods| - 1];
      assert forall i :: 0 <= i < |init| ==> init[i] == pods[i];
      BooksOnPageAllFetched(web, init, category);
      assert ItemResults(web, pods, category) == ItemResults(web, init, category) + [ItemBooks(web, last, category)];
      GatherSnoc(ItemResults(web, init, category), ItemBooks(web, last, category));
      assert ItemBooks(web, last, category) == Ok([ItemRecord(web, last, category)]);
    }
  }

  // ---------------------------------------------------------------------
  // One category: get_books_by_category
  // ---------------------------------------------------------------------

  /** The relative reference of listing page `i`, `page-{i}.html`. */
  function PageRef(i: nat): (ref: string)
    ensures |ref| > 10 && ref[..5] == "page-" && ref[|ref| - 5..] == ".html"
  {
    "page-" + Decimal(i) + ".html"
  }

  /** Distinct page numbers give distinct references, so no page is fetched twice. */
  lemma PageRefInjective(i: nat, j: nat)
    requires PageRef(i) == PageRef(j)
    ensures i == j
  {
    var s, t := PageRef(i), PageRef(j);
    assert s[5..|s| - 5] == Decimal(i);
    assert t[5..|t| - 5] == Decimal(j);
    DecimalInjective(i, j);
  }

  function PageUrl(web: Web, category: Category, i: nat): string {
    web.join(category.pageUrl, PageRef(i))
  }

  /** What listing page `i` contributes: nothing when its fetch fails, its records otherwise. */
  function PageBooks(web: Web, category: Category, i: nat): (r: Books)
    ensures web.fetch(PageUrl(web, category, i)).None? ==> r == Ok([])
    ensures web.fetch(PageUrl(web, category, i)).Some? ==>
      r == BooksOnPage(web, web.fetch(PageUrl(web, category, i)).value.productPods, category)
  {
    Scrape(web, ListingPage(category, i))
  }

  lemma {:induction false} PageResultsAppend(web: Web, category: Category, lo: nat, m: nat, hi: int)
    requires lo <= m <= hi + 1
    ensures PageResults(web, category, lo, hi)
         == PageResults(web, category, lo, m - 1) + PageResults(web, category, m, hi)
    decreases hi - m
  {
    if hi >= m {
      PageResultsAppend(web, category, lo, m, hi - 1);
      var last := PageResults(web, category, m, hi)[hi - m];
      assert PageResults(web, category, m, hi) == PageResults(web, category, m, hi - 1) + [last];
      assert PageResults(web, category, lo, hi) == PageResults(web, category, lo, hi - 1) + [last];
    }
  }

  lemma {:induction false} PageResultsAt(web: Web, category: Category, lo: nat, hi: int)
    ensures forall k :: 0 <= k < |PageResults(web, category, lo, hi)| ==>
      PageResults(web, category, lo, hi)[k] == PageBooks(web, category, lo + k)
    decreases if hi < lo then 0 else hi - lo + 1
  {
    if lo <= hi {
      PageResultsAt(web, category, lo, hi - 1);
    }
  }

  /** The records of listing pages `lo..hi` in increasing page order. */
  function LaterPages(web: Web, category: Category, lo: nat, hi: int): Books {
    Gather(PageResults(web, category, lo, hi))
  }

  /** Pages `lo..hi` are pages `lo..m-1` followed by pages `m..hi`. */
  lemma LaterPagesSplit(web: Web, category: Category, lo: nat, m: nat, hi: int)
    requires lo <= m <= hi + 1
    ensures LaterPages(web, category, lo, hi)
         == Extend(LaterPages(web, category, lo, m - 1), LaterPages(web, category, m, hi))
  {
    PageResultsAppend(web, category, lo, m, hi);
    GatherAppend(PageResults(web, category, lo, m - 1), PageResults(web, category, m, hi));
  }

  /**
   * A listing page whose fetch fails contributes nothing, and the pages
   * after it are still fetched and contribute their records.
   */
  lemma LaterPagesSkipsFailedPage(web: Web, category: Category, lo: nat, i: nat, hi: int)
    requires lo <= i <= hi
    requires web.fetch(PageUrl(web, category, i)).None?
    ensures LaterPages(web, category, lo, hi)
         == Extend(LaterPages(web, category, lo, i - 1), LaterPages(web, category, i + 1, hi))
  {
    var x := PageBooks(web, category, i);
    PageResultsAppend(web, category, lo, i, hi);
    PageResultsAppend(web, category, i, i + 1, hi);
    assert PageResults(web, category, i, i) == [x];
    assert PageResults(web, category, lo, hi)
        == PageResults(web, category, lo, i - 1) + [x] + PageResults(web, category, i + 1, hi);
    GatherSkipsEmpty(PageResults(web, category, lo, i - 1), x, PageResults(web, category, i + 1, hi));
  }

  /** Every record of pages `lo..hi` is tagged with the category. */
  lemma LaterPagesTagged(web: Web, category: Category, lo: nat, hi: int)
    ensures LaterPages(web, category, lo, hi).Ok? ==> AllFrom(LaterPages(web, category, lo, hi).value, category)
  {
    var rs := PageResults(web, category, lo, hi);
    PageResultsAt(web, category, lo, hi);
    forall k | 0 <= k < |rs| && rs[k].Ok?
      ensures AllNamed(rs[k].value, {category.name})
    {
      match web.fetch(PageUrl(web, category, lo + k))
      case None =>
      case Some(page) => BooksOnPageShape(web, page.productPods, category);
    }
    GatherNamed(rs, {category.name});
  }

  /**
   * Reading listing page `i` after pages `lo..i-1` (and after the records
   * `before`) extends what they yielded by what page `i` contributes.
   */
  lemma LaterPagesSnoc(web: Web, category: Category, before: Books, lo: nat, i: nat)
    requires lo <= i
    ensures Extend(before, LaterPages(web, category, lo, i))
         == Extend(Extend(before, LaterPages(web, category, lo, i - 1)), PageBooks(web, category, i))
  {
    var rs := PageResults(web, category, lo, i - 1);
    assert PageResults(web, category, lo, i) == rs + [PageBooks(web, category, i)];
    GatherSnoc(rs, PageBooks(web, category, i));
    ExtendAssoc(before, Gather(rs), PageBooks(web, category, i));
  }

  /**
   * Once the records `before` and pages `lo..i` have raised, pages after
   * `i` are never read: the error is the result for pages `lo..hi`.
   */
  lemma LaterPagesPrefixFails(web: Web, category: Category, before: Books, lo: nat, i: nat, hi: int)
    requires lo <= i <= hi
    requires Extend(before, LaterPages(web, category, lo, i)).Err?
    ensures Extend(before, LaterPages(web, category, lo, hi)) == Extend(before, LaterPages(web, category, lo, i))
  {
    LaterPagesSplit(web, category, lo, i + 1, hi);
    ExtendAssoc(before, LaterPages(web, category, lo, i), LaterPages(web, category, i + 1, hi));
  }

  /**
   * `get_books_by_category`. A failed first listing fetch gives no records;
   * otherwise the page count is computed, then the first page's records are
   * followed by those of pages `2..count`. Extraction errors propagate.
   */
  function BooksOfCategory(web: Web, category: Category): (r: Books)
    ensures web.fetch(category.pageUrl).None? ==> r == Ok([])
  {
    Scrape(web, Whole(category))
  }

  /**
   * When the first listing page is fetched, a bad page count is the
   * category's error; otherwise the category yields the records of page 1
   * followed by those of pages `2..count`.
   */
  lemma BooksOfCategoryPages(web: Web, category: Category)
    requires web.fetch(category.pageUrl).Some?
    ensures
      var first := web.fetch(category.pageUrl).value;
      match PagesCount(first)
      case Err(e) => BooksOfCategory(web, category) == Err(e)
      case Ok(count) =>
        BooksOfCategory(web, category)
        == Extend(BooksOnPage(web, first.productPods, category), LaterPages(web, category, 2, count))
  {
  }
  /** Every record of a category is tagged with the category's name. */
  lemma BooksOfCategoryTagged(web: Web, category: Category)
    ensures BooksOfCategory(web, category).Ok? ==> AllFrom(BooksOfCategory(web, category).value, category)
  {
    match web.fetch(category.pageUrl)
    case None =>
    case Some(first) =>
      BooksOfCategoryPages(web, category);
      if PagesCount(first).Ok? {
        BooksOnPageShape(web, first.productPods, category);
        LaterPagesTagged(web, category, 2, PagesCount(first).value);
      }
  }

  /** With a page count of at most one, only the first listing page is read. */
  lemma CategorySinglePage(web: Web, category: Category)
    requires web.fetch(category.pageUrl).Some?
    requires PagesCount(web.fetch(category.pageUrl).value).Ok?
    requires PagesCount(web.fetch(category.pageUrl).value).value <= 1
    ensures BooksOfCategory(web, category)
         == BooksOnPage(web, web.fetch(category.pageUrl).value.productPods, category)
  {
    var count := PagesCount(web.fetch(category.pageUrl).value).value;
    BooksOfCategoryPages(web, category);
    assert LaterPages(web, category, 2, count) == Ok([]);
  }

  /**
   * A failed fetch of listing page `i` drops that page only: the category
   * yields pages `1..i-1` followed by pages `i+1..count`.
   */
  lemma CategorySkipsFailedPage(web: Web, category: Category, i: nat)
    requires web.fetch(category.pageUrl).Some?
    requires PagesCount(web.fetch(category.pageUrl).value).Ok?
    requires 2 <= i <= PagesCount(web.fetch(category.pageUrl).value).value
    requires web.fetch(PageUrl(web, category, i)).None?
    ensures
      var first := web.fetch(category.pageUrl).value;
      var count := PagesCount(first).value;
      BooksOfCategory(web, category)
      == Extend(Extend(BooksOnPage(web, first.productPods, category), LaterPages(web, category, 2, i - 1)),
                LaterPages(web, category, i + 1, count))
  {
    var first := web.fetch(category.pageUrl).value;
    var count := PagesCount(first).value;
    BooksOfCategoryPages(web, category);
    LaterPagesSkipsFailedPage(web, category, 2, i, count);
    ExtendAssoc(BooksOnPage(web, first.productPods, category), LaterPages(web, category, 2, i - 1),
                LaterPages(web, category, i + 1, count));
  }

  /** In a three-page category whose page 2 cannot be fetched, pages 1 and 3 are read. */
  lemma CategoryPageTwoOfThreeFails(web: Web, category: Category)
    requires web.fetch(category.pageUrl).Some?
    requires PagesCount(web.fetch(category.pageUrl).value) == Ok(3)
    requires web.fetch(PageUrl(web, category, 2)).None?
    ensures BooksOfCategory(web, category)
         == Extend(BooksOnPage(web, web.fetch(category.pageUrl).value.productPods, category),
                   PageBooks(web, category, 3))
  {
    var firstPage := BooksOnPage(web, web.fetch(category.pageUrl).value.productPods, category);
    CategorySkipsFailedPage(web, category, 2);
    assert LaterPages(web, category, 2, 1) == Ok([]);
    assert PageResults(web, category, 3, 3) == [] + [PageBooks(web, category, 3)];
    GatherSnoc([], PageBooks(web, category, 3));
  }

  // ---------------------------------------------------------------------
  // All categories: get_all_books and main
  // ---------------------------------------------------------------------

  lemma {:induction false} CategoryResultsAppend(web: Web, a: seq<Category>, b: seq<Category>)
    ensures CategoryResults(web, a + b) == CategoryResults(web, a) + CategoryResults(web, b)
    decreases |b|
  {
    if b == [] {
      assert a + b == a;
    } else {
      var init := b[..|b| - 1];
      assert (a + b)[..|a + b| - 1] == a + init;
      assert (a + b)[|a + b| - 1] == b[|b| - 1];
      CategoryResultsAppend(web, a, init);
    }
  }

  lemma {:induction false} CategoryResultsAt(web: Web, categories: seq<Category>)
    ensures forall i :: 0 <= i < |categories| ==>
      CategoryResults(web, categories)[i] == BooksOfCategory(web, categories[i])
  {
    if categories != [] {
      var init := categories[..|categories| - 1];
      CategoryResultsAt(web, init);
      assert forall i :: 0 <= i < |init| ==> init[i] == categories[i];
    }
  }

  /** `get_all_books`: the records of every category, in category order. */
  function AllBooks(web: Web, categories: seq<Category>): Books {
    Scrape(web, Site(categories))
  }

  /** The number of records the categories yield together (a failing category counts none). */
  function TotalBooks(web: Web, categories: seq<Category>): nat {
    Total(CategoryResults(web, categories))
  }

  function Names(categories: seq<Category>): set<string> {
    set i | 0 <= i < |categories| :: categories[i].name
  }

  /**
   * The run fails exactly when some category raises; otherwise it holds as
   * many records as the categories yield together.
   */
  lemma AllBooksShape(web: Web, categories: seq<Category>)
    ensures AllBooks(web, categories).Ok?
        <==> forall i :: 0 <= i < |categories| ==> BooksOfCategory(web, categories[i]).Ok?
    ensures AllBooks(web, categories).Ok? ==> |AllBooks(web, categories).value| == TotalBooks(web, categories)
  {
    var rs := CategoryResults(web, categories);
    CategoryResultsAt(web, categories);
    GatherShape(rs);
  }

  /** Every record of the run is tagged with the name of one of the categories. */
  lemma AllBooksTagged(web: Web, categories: seq<Category>)
    ensures AllBooks(web, categories).Ok? ==> AllNamed(AllBooks(web, categories).value, Names(categories))
  {
    var rs := CategoryResults(web, categories);
    CategoryResultsAt(web, categories);
    forall i | 0 <= i < |rs| && rs[i].Ok?
      ensures AllNamed(rs[i].value, Names(categories))
    {
      BooksOfCategoryTagged(web, categories[i]);
      assert categories[i].name in Names(categories);
    }
    GatherNamed(rs, Names(categories));
  }

  /** The records of `a + b` are those of the categories `a` followed by those of `b`. */
  lemma AllBooksAppend(web: Web, a: seq<Category>, b: seq<Category>)
    ensures AllBooks(web, a + b) == Extend(AllBooks(web, a), AllBooks(web, b))
  {
    CategoryResultsAppend(web, a, b);
    GatherAppend(CategoryResults(web, a), CategoryResults(web, b));
  }

  /** Once a prefix of the categories has raised, the run has raised with that error. */
  lemma AllBooksPrefixFails(web: Web, categories: seq<Category>, k: nat)
    requires k <= |categories|
    requires AllBooks(web, categories[..k]).Err?
    ensures AllBooks(web, categories) == AllBooks(web, categories[..k])
  {
    assert categories == categories[..k] + categories[k..];
    CategoryResultsAppend(web, categories[..k], categories[k..]);
    assert CategoryResults(web, categories)[..k] == CategoryResults(web, categories[..k]);
    GatherPrefixFails(CategoryResults(web, categories), k);
  }

  /** Categories yielding `[a1, a2]` and `[b1]` give `[a1, a2, b1]`. */
  lemma AllBooksTwoCategories(web: Web, a: Category, b: Category, a1: Book, a2: Book, b1: Book)
    requires BooksOfCategory(web, a) == Ok([a1, a2])
    requires BooksOfCategory(web, b) == Ok([b1])
    ensures AllBooks(web, [a, b]) == Ok([a1, a2, b1])
  {
    var ra, rb := BooksOfCategory(web, a), BooksOfCategory(web, b);
    assert [a, b][..1] == [a] && [a][..0] == [];
    assert CategoryResults(web, [a, b]) == [ra] + [rb];
    GatherSnoc([ra], rb);
    assert [ra] == [] + [ra];
    GatherSnoc([], ra);
    assert [] + [a1, a2] == [a1, a2];
    assert [a1, a2] + [b1] == [a1, a2, b1];
  }

  /**
   * `main` without the file writers: the records that would be exported,
   * or `None` when no category was found and nothing is written.
   */
  function Run(web: Web): (r: Result<Option<seq<Book>>, Failure>)
    ensures web.fetch(BaseUrl).None? ==> r == Ok(None)
    ensures r.Ok? <==> Categories(web).Ok? && AllBooks(web, Categories(web).value).Ok?
    ensures r.Ok? ==> (r.value.Some? <==> Categories(web).value != [])
    ensures r.Ok? && r.value.Some? ==> r.value.value == AllBooks(web, Categories(web).value).value
  {
    var categories :- Categories(web);
    if categories == [] then Ok(None)
    else
      var books :- AllBooks(web, categories);
      Ok(Some(books))
  }

  // ---------------------------------------------------------------------
  // The scraper's loops
  // ---------------------------------------------------------------------

  /** The `for book in books_on_page` loop of `get_books_by_page`. */
  method GetBooksByPage(web: Web, page: Doc, category: Category) returns (r: Books)
    ensures r == BooksOnPage(web, page.productPods, category)
  {
    var pods := page.productPods;
    var books: seq<Book> := [];
    for i := 0 to |pods|
      invariant BooksOnPage(web, pods[..i], category) == Ok(books)
    {
      assert pods[..i + 1][..i] == pods[..i];
      assert ItemResults(web, pods[..i + 1], category)
          == ItemResults(web, pods[..i], category) + [ItemBooks(web, pods[i], category)];
      GatherSnoc(ItemResults(web, pods[..i], category), ItemBooks(web, pods[i], category));
      var url := ItemUrl(web, pods[i], category);
      if url.Err? {
        BooksOnPagePrefixFails(web, pods, i + 1, category);
        return Err(url.error);
      }
      var res := web.fetch(url.value);
      if res.Some? {
        var book := BookInfo(res.value, category);
        if book.Err? {
          BooksOnPagePrefixFails(web, pods, i + 1, category);
          return Err(book.error);
        }
        books := books + [book.value];
      } else {
        assert books + [] == books;
      }
    }
    assert pods[..|pods|] == pods;
    return Ok(books);
  }

  /** `get_books_by_category`, with its `for i in range(2, pages_count + 1)` loop. */
  method GetBooksByCategory(web: Web, category: Category) returns (r: Books)
    ensures r == BooksOfCategory(web, category)
  {
    var res := web.fetch(category.pageUrl);
    if res.None? {
      return Ok([]);
    }
    var soup := res.value;
    BooksOfCategoryPages(web, category);
    var count := PagesCount(soup);
    if count.Err? {
      return Err(count.error);
    }
    var pagesCount := count.value;
    var first := GetBooksByPage(web, soup, category);
    if first.Err? {
      return first;
    }
    var books := first.value;
    if pagesCount == 1 {
      return Ok(books);
    }
    var i := 2;
    assert PageResults(web, category, 2, 1) == [];
    while i <= pagesCount
      invariant 2 <= i <= pagesCount + 1 || (i == 2 && pagesCount < 2)
      invariant Extend(first, LaterPages(web, category, 2, i - 1)) == Ok(books)
    {
      LaterPagesSnoc(web, category, first, 2, i);
      var page := web.fetch(PageUrl(web, category, i));
      if page.Some? {
        var more := GetBooksByPage(web, page.value, category);
        if more.Err? {
          LaterPagesPrefixFails(web, category, first, 2, i, pagesCount);
          return more;
        }
        books := books + more.value;
      }
      i := i + 1;
    }
    return Ok(books);
  }

  /** The `for category in categories` loop of `get_all_books`. */
  method GetAllBooks(web: Web, categories: seq<Category>) returns (r: Books)
    ensures r == AllBooks(web, categories)
  {
    var allBooks: seq<Book> := [];
    for i := 0 to |categories|
      invariant AllBooks(web, categories[..i]) == Ok(allBooks)
    {
      assert categories[..i + 1][..i] == categories[..i];
      assert CategoryResults(web, categories[..i + 1])
          == CategoryResults(web, categories[..i]) + [BooksOfCategory(web, categories[i])];
      GatherSnoc(CategoryResults(web, categories[..i]), BooksOfCategory(web, categories[i]));
      var categoryBooks := GetBooksByCategory(web, categories[i]);
      if categoryBooks.Err? {
        AllBooksPrefixFails(web, categories, i + 1);
        return categoryBooks;
      }
      allBooks := allBooks + categoryBooks.value;
    }
    assert categories[..|categories|] == categories;
    return Ok(allBooks);
  }
}
