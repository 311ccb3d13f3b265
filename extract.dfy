/**
 * The pure extraction steps of the scraper: the category list from the
 * root page, the number of listing pages of a category, and one book record
 * from a detail page.
 */
module Extract {
  import opened Wrappers
  import opened Text
  import opened Page

  /** `ceil(count / 20)`, the number of listing pages holding `count` books. */
  function PagesFor(count: nat): (pages: nat)
    ensures (pages - 1) * MaxBooksPerPage < count <= pages * MaxBooksPerPage
  {
    (count + MaxBooksPerPage - 1) / MaxBooksPerPage
  }

  /**
   * `get_pages_count`: parse the stripped book count of a listing page and
   * turn it into a number of pages. A missing element or a count that is not
   * a number is an error for the caller.
   */
  function PagesCount(page: Doc): (r: Result<nat, Failure>)
    ensures page.bookCount.None? ==> r.Err? && r.error.MissingElement?
    ensures r.Ok? <==> page.bookCount.Some? && IsDecimal(Strip(page.bookCount.value))
    ensures r.Ok? ==>
      var count := DigitsValue(Strip(page.bookCount.value));
      (r.value - 1) * MaxBooksPerPage < count <= r.value * MaxBooksPerPage
  {
    match page.bookCount
    case None => Err(MissingElement("form.form-horizontal strong"))
    case Some(text) =>
      var digits := Strip(text);
      if IsDecimal(digits) then Ok(PagesFor(DigitsValue(digits)))
      else Err(NotAnInteger(digits))
  }

  /** The two characters the site's mis-decoded pound sign turns into. */
  const Artifact: string := "\U{00C2}\U{00A3}"

  predicate HasArtifactAt(s: string, i: int) {
    0 <= i && i + 1 < |s| && s[i] == Artifact[0] && s[i + 1] == Artifact[1]
  }

  predicate HasArtifact(s: string) {
    exists i :: 0 <= i < |s| && HasArtifactAt(s, i)
  }

  /**
   * `s.replace('Â£', '')`: one left-to-right pass that removes every
   * non-overlapping occurrence it meets. Only the two artifact characters can
   * disappear; every other character keeps its number of occurrences.
   */
  function StripArtifact(s: string): (r: string)
    ensures multiset(r) <= multiset(s)
    ensures forall c :: c != Artifact[0] && c != Artifact[1] ==> multiset(r)[c] == multiset(s)[c]
  {
    if |s| < 2 then s
    else if HasArtifactAt(s, 0) then
      assert s == s[..2] + s[2..];
      StripArtifact(s[2..])
    else
      assert s == [s[0]] + s[1..];
      [s[0]] + StripArtifact(s[1..])
  }

  /** A price without the artifact comes through unchanged. */
  lemma {:induction false} StripArtifactKeepsClean(s: string)
    requires !HasArtifact(s)
    ensures StripArtifact(s) == s
  {
    if |s| >= 2 {
      assert !HasArtifactAt(s, 0);
      forall i ensures !HasArtifactAt(s[1..], i) {
        assert HasArtifactAt(s[1..], i) ==> HasArtifactAt(s, i + 1);
      }
      StripArtifactKeepsClean(s[1..]);
    }
  }

  /** The artifact on its own is removed entirely. */
  lemma StripArtifactOfArtifact()
    ensures StripArtifact(Artifact) == []
  {
    assert HasArtifactAt(Artifact, 0);
  }

  /**
   * The pass works piece by piece: where the cut between `a` and `b` does
   * not split an artifact, cleaning `a + b` cleans `a` and `b` in place and
   * keeps them in order. With `StripArtifactKeepsClean` and
   * `StripArtifactOfArtifact` this fixes the result on every input.
   */
  lemma {:induction false} StripArtifactAppend(a: string, b: string)
    requires a == [] || b == [] || !(a[|a| - 1] == Artifact[0] && b[0] == Artifact[1])
    ensures StripArtifact(a + b) == StripArtifact(a) + StripArtifact(b)
  {
    if a == [] {
      assert a + b == b;
    } else if b == [] {
      assert a + b == a;
    } else if |a| == 1 {
      assert !HasArtifactAt(a + b, 0);
      assert (a + b)[1..] == b;
      assert StripArtifact(a + b) == [a[0]] + StripArtifact(b);
      assert StripArtifact(a) == [a[0]];
    } else if HasArtifactAt(a, 0) {
      var rest := a[2..];
      assert HasArtifactAt(a + b, 0);
      assert (a + b)[2..] == rest + b;
      StripArtifactAppend(rest, b);
      assert StripArtifact(a + b) == StripArtifact(rest) + StripArtifact(b);
      assert StripArtifact(a) == StripArtifact(rest);
    } else {
      var rest := a[1..];
      assert !HasArtifactAt(a + b, 0);
      assert (a + b)[1..] == rest + b;
      StripArtifactAppend(rest, b);
      var x, y := StripArtifact(rest), StripArtifact(b);
      assert StripArtifact(a + b) == [a[0]] + (x + y);
      assert StripArtifact(a) == [a[0]] + x;
      assert [a[0]] + (x + y) == ([a[0]] + x) + y;
    }
  }

  /** Every `Â` of `s` is the first half of an artifact. */
  predicate OnlyWholeArtifacts(s: string) {
    forall i :: 0 <= i < |s| && s[i] == Artifact[0] ==> HasArtifactAt(s, i)
  }

  /**
   * When the `Â` character occurs only as part of `Â£`, the stripped price
   * holds no `Â` at all, and so no artifact.
   */
  lemma {:induction false} StripArtifactRemovesAll(s: string)
    requires OnlyWholeArtifacts(s)
    ensures Artifact[0] !in StripArtifact(s)
    ensures !HasArtifact(StripArtifact(s))
  {
    if |s| < 2 {
      if |s| == 1 {
        assert !HasArtifactAt(s, 0);
      }
    } else if HasArtifactAt(s, 0) {
      assert forall i :: 0 <= i < |s[2..]| && s[2..][i] == Artifact[0] ==> HasArtifactAt(s, i + 2);
      StripArtifactRemovesAll(s[2..]);
    } else {
      assert forall i :: 0 <= i < |s[1..]| && s[1..][i] == Artifact[0] ==> HasArtifactAt(s, i + 1);
      StripArtifactRemovesAll(s[1..]);
      assert s[0] != Artifact[0];
    }
  }

  /** The site's own price text loses its artifact. */
  lemma StripArtifactExample()
    ensures StripArtifact("\U{00C2}\U{00A3}51.77") == "51.77"
  {
    var s := "\U{00C2}\U{00A3}51.77";
    assert HasArtifactAt(s, 0);
    assert s[2..] == "51.77";
    StripArtifactKeepsClean("51.77");
  }

  /**
   * A single pass does not remove an artifact that only appears once an inner
   * one is removed: `ÂÂ££` becomes `Â£`.
   */
  lemma StripArtifactSinglePass()
    ensures StripArtifact("\U{00C2}\U{00C2}\U{00A3}\U{00A3}") == Artifact
    ensures HasArtifact(StripArtifact("\U{00C2}\U{00C2}\U{00A3}\U{00A3}"))
  {
    var s := "\U{00C2}\U{00C2}\U{00A3}\U{00A3}";
    assert !HasArtifactAt(s, 0);
    assert HasArtifactAt(s[1..], 0);
    assert s[1..][2..] == "\U{00A3}";
    assert HasArtifactAt(Artifact, 0);
  }

  /**
   * `get_book_info`: one record from a detail page. The lookups happen in the
   * source's order (heading, price, rating, description marker, first cell,
   * description paragraph), so the first missing piece is the reported error.
   */
  function BookInfo(page: Doc, category: Category): (r: Result<Book, Failure>)
    ensures r.Ok? <==>
      && page.heading.Some? && page.priceText.Some?
      && page.ratingClasses.Some? && |page.ratingClasses.value| >= 2
      && page.firstCell.Some? && !page.description.MarkerOnly?
    ensures r.Ok? ==>
      && r.value.category == category.name
      && r.value.title == page.heading.value
      && r.value.price == StripArtifact(page.priceText.value)
      && r.value.rating == page.ratingClasses.value[1]
      && r.value.upc == page.firstCell.value
      && (page.description.NoMarker? ==> r.value.description == "----")
      && (page.description.MarkerThen? ==> r.value.description == page.description.paragraph)
  {
    var title :- if page.heading.Some? then Ok(page.heading.value) else Err(MissingElement("h1"));
    var priceText :- if page.priceText.Some? then Ok(page.priceText.value) else Err(MissingElement("p.price_color"));
    var classes :- if page.ratingClasses.Some? then Ok(page.ratingClasses.value) else Err(MissingElement("p.star-rating"));
    var rating :- if |classes| >= 2 then Ok(classes[1]) else Err(IndexOutOfRange);
    var upc :- if page.firstCell.Some? then Ok(page.firstCell.value) else Err(MissingElement("td"));
    var description :- match page.description
      case NoMarker => Ok("----")
      case MarkerOnly => Err(MissingElement("p"))
      case MarkerThen(text) => Ok(text);
    Ok(Book(category.name, title, StripArtifact(priceText), rating, description, upc))
  }

  /**
   * The list comprehension of `get_categories` over the navigation anchors
   * after the first: one category per anchor, in order, named by its stripped
   * text and located at its `href` resolved against the root. An anchor
   * without `href` raises, and the first one to do so is the error.
   */
  function CategoriesOf(web: Web, anchors: seq<Anchor>): (r: Result<seq<Category>, Failure>)
    ensures r.Ok? <==> forall i :: 0 <= i < |anchors| ==> anchors[i].href.Some?
    ensures r.Ok? ==> |r.value| == |anchors|
    ensures r.Ok? ==> forall i :: 0 <= i < |anchors| ==>
      r.value[i] == Category(web.join(BaseUrl, anchors[i].href.value), Strip(anchors[i].text))
  {
    if anchors == [] then Ok([])
    else
      match anchors[0].href
      case None => Err(MissingAttribute("href"))
      case Some(href) =>
        var rest :- CategoriesOf(web, anchors[1..]);
        Ok([Category(web.join(BaseUrl, href), Strip(anchors[0].text))] + rest)
  }

  /**
   * `get_categories`: fetch the root; a failed fetch gives no categories, a
   * page without the navigation list raises, and otherwise the first anchor
   * ("All books") is dropped and every other one becomes a category.
   */
  function Categories(web: Web): (r: Result<seq<Category>, Failure>)
    ensures web.fetch(BaseUrl).None? ==> r == Ok([])
    ensures web.fetch(BaseUrl).Some? && web.fetch(BaseUrl).value.navAnchors.None? ==> r.Err?
    ensures web.fetch(BaseUrl).Some? && web.fetch(BaseUrl).value.navAnchors.Some? ==>
      var anchors := web.fetch(BaseUrl).value.navAnchors.value;
      && (r.Ok? <==> forall i :: 1 <= i < |anchors| ==> anchors[i].href.Some?)
      && (r.Ok? ==> |r.value| == if |anchors| == 0 then 0 else |anchors| - 1)
      && (r.Ok? ==> forall i :: 1 <= i < |anchors| ==>
            r.value[i - 1] == Category(web.join(BaseUrl, anchors[i].href.value), Strip(anchors[i].text)))
  {
    match web.fetch(BaseUrl)
    case None => Ok([])
    case Some(root) =>
      match root.navAnchors
      case None => Err(MissingElement("ul.nav-list"))
      case Some(anchors) =>
        if anchors == [] then Ok([]) else
        var r := CategoriesOf(web, anchors[1..]);
        assert forall i :: 1 <= i < |anchors| ==> anchors[1..][i - 1] == anchors[i];
        r
  }
}
