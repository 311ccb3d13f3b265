/**
 * The accumulation pattern shared by the scraper's three loops: a list that
 * is extended with the records of one unit of work after another (a product
 * block, a listing page, a category), where working on a unit may raise an
 * exception that ends everything.
 */
module Accumulate {
  import opened Wrappers
  import opened Page

  /** The records gathered so far, or the exception that ended the run. */
  type Books = Result<seq<Book>, Failure>

  /**
   * `books.extend(more)` when computing `more` may raise: once an exception
   * is raised nothing later is computed, so the first failure wins.
   */
  function Extend(a: Books, b: Books): (r: Books)
    ensures b == Ok([]) ==> r == a
    ensures a == Ok([]) ==> r == b
  {
    match a
    case Err(_) => a
    case Ok(xs) =>
      match b
      case Err(_) => b
      case Ok(ys) =>
        assert xs + [] == xs && [] + ys == ys;
        Ok(xs + ys)
  }

  lemma ExtendAssoc(a: Books, b: Books, c: Books)
    ensures Extend(Extend(a, b), c) == Extend(a, Extend(b, c))
  {
    if a.Ok? && b.Ok? && c.Ok? {
      assert (a.value + b.value) + c.value == a.value + (b.value + c.value);
    }
  }

  /** The result of working through the units whose results are `rs`, in order. */
  function Gather(rs: seq<Books>): Books {
    if rs == [] then Ok([]) else Extend(Gather(rs[..|rs| - 1]), rs[|rs| - 1])
  }

  /** How many records the successful units yield together. */
  function Total(rs: seq<Books>): nat {
    if rs == [] then 0
    else Total(rs[..|rs| - 1]) + (if rs[|rs| - 1].Ok? then |rs[|rs| - 1].value| else 0)
  }

  /** How many units yield nothing and raise nothing. */
  function Empties(rs: seq<Books>): nat {
    if rs == [] then 0
    else Empties(rs[..|rs| - 1]) + (if rs[|rs| - 1] == Ok([]) then 1 else 0)
  }

  predicate AllNamed(books: seq<Book>, names: set<string>) {
    forall i :: 0 <= i < |books| ==> books[i].category in names
  }

  /** One more unit: the step of each of the scraper's loops. */
  lemma GatherSnoc(rs: seq<Books>, x: Books)
    ensures Gather(rs + [x]) == Extend(Gather(rs), x)
  {
    assert (rs + [x])[..|rs|] == rs;
  }

  /** Working through `a + b` is working through `a`, then through `b`. */
  lemma {:induction false} GatherAppend(a: seq<Books>, b: seq<Books>)
    ensures Gather(a + b) == Extend(Gather(a), Gather(b))
    decreases |b|
  {
    if b == [] {
      assert a + b == a;
    } else {
      var init := b[..|b| - 1];
      assert (a + b)[..|a + b| - 1] == a + init;
      GatherAppend(a, init);
      ExtendAssoc(Gather(a), Gather(init), b[|b| - 1]);
    }
  }

  /** A unit that yields nothing and raises nothing can be left out. */
  lemma GatherSkipsEmpty(a: seq<Books>, x: Books, b: seq<Books>)
    requires x == Ok([])
    ensures Gather(a + [x] + b) == Extend(Gather(a), Gather(b))
  {
    GatherAppend(a + [x], b);
    GatherAppend(a, [x]);
    assert [x][..0] == [];
  }

  /** Once the first `k` units have raised, the whole run has raised with that error. */
  lemma GatherPrefixFails(rs: seq<Books>, k: nat)
    requires k <= |rs|
    requires Gather(rs[..k]).Err?
    ensures Gather(rs) == Gather(rs[..k])
  {
    assert rs == rs[..k] + rs[k..];
    GatherAppend(rs[..k], rs[k..]);
  }

  /**
   * The run succeeds exactly when every unit does, and then it holds the
   * records of all the units.
   */
  lemma {:induction false} GatherShape(rs: seq<Books>)
    ensures Gather(rs).Ok? <==> forall i :: 0 <= i < |rs| ==> rs[i].Ok?
    ensures Gather(rs).Ok? ==> |Gather(rs).value| == Total(rs)
  {
    if rs != [] {
      var init := rs[..|rs| - 1];
      assert forall i :: 0 <= i < |init| ==> init[i] == rs[i];
      GatherShape(init);
    }
  }

  /**
   * When every unit yields at most one record, the units that yield a
   * record and those that yield none account for all of them.
   */
  lemma {:induction false} TotalOfSingles(rs: seq<Books>)
    requires forall i :: 0 <= i < |rs| ==> rs[i].Ok? && |rs[i].value| <= 1
    ensures Total(rs) + Empties(rs) == |rs|
  {
    if rs != [] {
      var init := rs[..|rs| - 1];
      assert forall i :: 0 <= i < |init| ==> init[i] == rs[i];
      TotalOfSingles(init);
      var last := rs[|rs| - 1];
      if last != Ok([]) {
        assert |last.value| == 1;
      }
    }
  }

  /** When every unit tags its records with one of `names`, so does the run. */
  lemma {:induction false} GatherNamed(rs: seq<Books>, names: set<string>)
    requires forall i :: 0 <= i < |rs| ==> rs[i].Ok? ==> AllNamed(rs[i].value, names)
    ensures Gather(rs).Ok? ==> AllNamed(Gather(rs).value, names)
  {
    if rs != [] {
      var init := rs[..|rs| - 1];
      assert forall i :: 0 <= i < |init| ==> init[i] == rs[i];
      GatherNamed(init, names);
    }
  }
}
