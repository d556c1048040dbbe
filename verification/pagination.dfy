/** Page arithmetic of the offer listing and the shape of its result.
    `Skip` and `LastPage` are the two numbers the listing reads from a
    pagination object built from (page, limit, total). */
module Pagination {
  import opened Wrappers

  /** A listing result: the items, plus the current and last page numbers
      when the listing was paginated. A scroll result carries neither. */
  datatype Paginated<T> = Paginated(data: seq<T>, currentPage: Option<nat>, lastPage: Option<nat>)
  {
    predicate IsScroll() {
      currentPage.None? && lastPage.None?
    }
  }

  /** Number of items before the first item of `page` (pages count from 1). */
  function Skip(page: nat, limit: nat): (r: nat)
    requires page >= 1 && limit >= 1
    ensures r == 0 <==> page == 1
    ensures r / limit == page - 1
    ensures r % limit == 0
  {
    var r := (page - 1) * limit;
    DivBetween(r, page - 1, limit);
    r
  }

  /** The number of pages of `limit` items needed to hold `total` items,
      i.e. the ceiling of total / limit: the least `r` with r * limit >= total. */
  function LastPage(total: nat, limit: nat): (r: nat)
    requires limit >= 1
    ensures r * limit >= total
    ensures r == 0 || (r - 1) * limit < total
    ensures r == 0 <==> total == 0
  {
    var q := (total + limit - 1) / limit;
    assert q * limit + (total + limit - 1) % limit == total + limit - 1;
    assert (q - 1) * limit == q * limit - limit;
    q
  }

  /** The page `page` of `items`: skip `Skip(page, limit)` items, then take at
      most `limit`. A page past the end is empty, not an error. */
  function Slice<T>(items: seq<T>, page: nat, limit: nat): (r: seq<T>)
    requires page >= 1 && limit >= 1
    ensures |r| <= limit
    ensures Skip(page, limit) >= |items| ==> r == []
    ensures Skip(page, limit) + limit <= |items| ==> |r| == limit
    ensures Skip(page, limit) < |items| < Skip(page, limit) + limit ==> |r| == |items| - Skip(page, limit)
    ensures forall j :: 0 <= j < |r| ==> Skip(page, limit) + j < |items| && r[j] == items[Skip(page, limit) + j]
  {
    var skip := Skip(page, limit);
    if skip >= |items| then []
    else if skip + limit <= |items| then items[skip..skip + limit]
    else items[skip..]
  }

  /** Every index belongs to exactly one page: index i is on page p iff
      p is i / limit + 1. */
  lemma {:induction false} PageOfIndex(i: nat, page: nat, limit: nat)
    requires page >= 1 && limit >= 1
    ensures Skip(page, limit) <= i < Skip(page, limit) + limit <==> page == i / limit + 1
  {
    var s := Skip(page, limit);
    assert s == (page - 1) * limit;
    if s <= i < s + limit {
      DivBetween(i, page - 1, limit);
    }
    if page == i / limit + 1 {
      assert i == (page - 1) * limit + i % limit;
    }
  }

  lemma DivBetween(i: nat, q: nat, limit: nat)
    requires limit >= 1
    requires q * limit <= i < q * limit + limit
    ensures i / limit == q
  {
    var d := i / limit;
    assert i == d * limit + i % limit;
    MulLess(q, d + 1, limit);
    MulLess(d, q + 1, limit);
  }

  /** Cancelling a positive factor preserves a strict inequality. */
  lemma MulLess(a: int, b: int, c: int)
    requires c >= 1 && a * c < b * c
    ensures a < b
  {
  }

  /** Paging through `items` with `LastPage(|items|, limit)` pages shows every
      item: item i is at position i - Skip(p) of page p = i / limit + 1, and p
      is not past the last page. */
  lemma {:induction false} PagesCoverItems<T>(items: seq<T>, limit: nat, i: nat)
    requires limit >= 1 && i < |items|
    ensures var p := i / limit + 1;
      && p <= LastPage(|items|, limit)
      && Skip(p, limit) <= i
      && i - Skip(p, limit) < |Slice(items, p, limit)|
      && Slice(items, p, limit)[i - Skip(p, limit)] == items[i]
  {
    var p := i / limit + 1;
    PageOfIndex(i, p, limit);
    var last := LastPage(|items|, limit);
    MulLess(p - 1, last, limit);
  }

  /** A page past the last page is empty. */
  lemma {:induction false} PastLastPageIsEmpty<T>(items: seq<T>, page: nat, limit: nat)
    requires page >= 1 && limit >= 1
    requires page > LastPage(|items|, limit)
    ensures Slice(items, page, limit) == []
  {
    var last := LastPage(|items|, limit);
    if Skip(page, limit) < |items| {
      MulLess(page - 1, last, limit);
    }
  }

  /** The four cases of the pagination unit test. The last one shows that
      the page number is not clamped to the last page. */
  lemma PaginationExamples()
    ensures Skip(1, 10) == 0 && LastPage(22, 10) == 3
    ensures Skip(2, 10) == 10 && LastPage(22, 10) == 3
    ensures Skip(3, 4) == 8 && LastPage(15, 4) == 4
    ensures Skip(100, 5) == 495 && LastPage(5, 5) == 1
  {
  }
}
