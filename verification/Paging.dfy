/** Pages of a result in a fixed order: the clamping of the request, OFFSET and LIMIT, and the two page counts, all in
    64-bit arithmetic. */
module Paging {
  import opened Integers

  const TWO_63: int := 0x8000_0000_0000_0000

  /** Go's int64: what an operation yields when its exact result is x. */
  function Wrap(x: int): (w: int)
    ensures -TWO_63 <= w < TWO_63
    ensures -TWO_63 <= x < TWO_63 ==> w == x
  {
    (x + TWO_63) % (2 * TWO_63) - TWO_63
  }

  function ClampPage(page: int): int { if page <= 0 then 1 else page }

  function ClampLimit(limit: int): int { if limit <= 0 then 10 else if limit > 100 then 100 else limit }

  function Offset(page: int, limit: int): int { Wrap(Wrap(page - 1) * limit) }

  /** GORM leaves out a non-positive OFFSET and a negative LIMIT. */
  function Fetch<T>(rows: seq<T>, offset: int, limit: int): seq<T> {
    var skipped := if offset <= 0 then rows else if offset >= |rows| then [] else rows[offset..];
    if 0 <= limit < |skipped| then skipped[..limit] else skipped
  }

  function Page<T>(rows: seq<T>, page: int, limit: int): seq<T> { Fetch(rows, Offset(page, limit), limit) }

  /** The page count of ListUsers. */
  function ListedPages(total: int, limit: int): int {
    if limit > 0 then Quotient(Wrap(Wrap(total + limit) - 1), limit) else 0
  }

  /** The page count of NewPagination. */
  function NewPaginationPages(total: int, limit: int): int {
    if limit > 0 then Quotient(Wrap(Wrap(total + limit) - 1), limit) else limit
  }

  /** A page size the use case lets through, and a number of rows that leaves the sums room. */
  predicate Sized(total: int, limit: int) { 1 <= limit <= 100 && 0 <= total <= TWO_63 - 100 }

  /** The sum may wrap, as long as subtracting one brings it back. */
  lemma WrapBack(x: int)
    requires 1 <= x <= TWO_63
    ensures Wrap(Wrap(x) - 1) == x - 1
  {
  }

  lemma DivisionBounds(x: int, y: int)
    requires x >= 0 && y > 0
    ensures (x / y) * y <= x < (x / y + 1) * y
  {
    assert x == y * (x / y) + x % y;
  }

  /** Both page counts are the ceiling of total / limit. */
  lemma PagesAreCeiling(total: int, limit: int)
    requires Sized(total, limit)
    ensures NewPaginationPages(total, limit) == ListedPages(total, limit) >= 0
    ensures (ListedPages(total, limit) - 1) * limit < total <= ListedPages(total, limit) * limit
  {
    var n := (total + limit - 1) / limit;
    DivisionBounds(total + limit - 1, limit);
    WrapBack(total + limit);
    hide Wrap;
    assert (n + 1) * limit == n * limit + limit && (n - 1) * limit == n * limit - limit;
  }

  /** They part only where no page size is given: NewPagination then answers the page size itself. */
  lemma PageCountsAgreeIff(total: int, limit: int)
    ensures NewPaginationPages(total, limit) == ListedPages(total, limit) <==> limit >= 0
    ensures limit <= 0 ==> ListedPages(total, limit) == 0 && NewPaginationPages(total, limit) == limit
  {
  }

  /** Pages 1..n, one after the other. */
  function Pages<T>(rows: seq<T>, limit: int, n: nat): seq<T> {
    if n == 0 then [] else Pages(rows, limit, n - 1) + Page(rows, n, limit)
  }

  /** A page whose offset does not overflow starts where it should. */
  lemma PageStartsAt<T>(rows: seq<T>, page: int, limit: int)
    requires page >= 1 && limit >= 1 && (page - 1) * limit < TWO_63
    ensures (page - 1) * limit >= 0
    ensures Page(rows, page, limit) == Fetch(rows, (page - 1) * limit, limit)
  {
    hide Wrap, Fetch;
    ProductGrows(page - 1, limit);
  }

  lemma ProductGrows(a: int, b: int)
    requires a >= 0 && b >= 1
    ensures a * b >= a
  {
  }

  lemma ProductMonotone(a: int, b: int, c: int)
    requires a <= b && c >= 0
    ensures a * c <= b * c
  {
  }

  /** The first k pages hold the first k * limit rows. */
  lemma {:induction false} PagesArePrefix<T>(rows: seq<T>, limit: int, k: nat)
    requires Sized(|rows|, limit) && (k == 0 || (k - 1) * limit < |rows|)
    ensures Pages(rows, limit, k) == if k * limit <= |rows| then rows[..k * limit] else rows
  {
    if k > 0 {
      var from := (k - 1) * limit;
      assert k * limit == from + limit && (k - 2) * limit == from - limit;
      PagesArePrefix(rows, limit, k - 1);
      PageStartsAt(rows, k, limit);
      hide Page;
    }
  }

  lemma FullPage<T>(rows: seq<T>, limit: int, i: int, n: int)
    requires Sized(|rows|, limit) && 1 <= i < n && (n - 1) * limit < |rows|
    ensures |Page(rows, i, limit)| == limit
  {
    ProductMonotone(i, n - 1, limit);
    assert i * limit == (i - 1) * limit + limit;
    PageStartsAt(rows, i, limit);
    hide Page;
  }

  lemma LastPage<T>(rows: seq<T>, limit: int, n: int)
    requires Sized(|rows|, limit) && 1 <= n && (n - 1) * limit < |rows| <= n * limit
    ensures 1 <= |Page(rows, n, limit)| <= limit
  {
    assert n * limit == (n - 1) * limit + limit;
    PageStartsAt(rows, n, limit);
    hide Page;
  }

  lemma LaterPage<T>(rows: seq<T>, limit: int, i: int, n: int)
    requires Sized(|rows|, limit) && i > n >= 0 && |rows| <= n * limit && (i - 1) * limit < TWO_63
    ensures Page(rows, i, limit) == []
  {
    ProductMonotone(n, i - 1, limit);
    PageStartsAt(rows, i, limit);
    hide Page;
  }

  /** Pages 1..TotalPages together are the whole result; all but the last are full; later pages are empty as long as
      their offset fits in 64 bits. */
  lemma PagesPartition<T>(rows: seq<T>, limit: int)
    requires Sized(|rows|, limit)
    ensures var n := ListedPages(|rows|, limit);
            && n >= 0
            && Pages(rows, limit, n) == rows
            && (forall i :: 1 <= i < n ==> |Page(rows, i, limit)| == limit)
            && (n > 0 ==> 1 <= |Page(rows, n, limit)| <= limit)
            && (forall i :: i > n && (i - 1) * limit < TWO_63 ==> Page(rows, i, limit) == [])
  {
    var n := ListedPages(|rows|, limit);
    PagesAreCeiling(|rows|, limit);
    PagesArePrefix(rows, limit, n);
    hide Page, Pages, ListedPages;
    forall i | 1 <= i < n
      ensures |Page(rows, i, limit)| == limit
    {
      FullPage(rows, limit, i, n);
    }
    if n > 0 {
      LastPage(rows, limit, n);
    }
    forall i | i > n && (i - 1) * limit < TWO_63
      ensures Page(rows, i, limit) == []
    {
      LaterPage(rows, limit, i, n);
    }
  }

  /** Page `page` shows the rows from (page - 1) * limit on. */
  lemma PageShows<T>(rows: seq<T>, page: int, limit: int)
    requires Sized(|rows|, limit) && page >= 1 && (page - 1) * limit < TWO_63
    ensures var from := (page - 1) * limit;
            && from >= 0
            && Page(rows, page, limit) == if from >= |rows| then [] else if from + limit <= |rows|
                                          then rows[from..from + limit] else rows[from..]
  {
    PageStartsAt(rows, page, limit);
    hide Page;
  }

  /** Requests in range pass unchanged; the others get page 1, ten rows by default and a hundred at most. */
  lemma ClampsAreDefaults(page: int, limit: int)
    ensures ClampPage(page) == page <==> page >= 1
    ensures page < 1 ==> ClampPage(page) == 1
    ensures ClampLimit(limit) == limit <==> 1 <= limit <= 100
    ensures limit < 1 ==> ClampLimit(limit) == 10
    ensures limit > 100 ==> ClampLimit(limit) == 100
  {
  }

  /** The offset is exact for exactly the pages whose offset fits. */
  lemma OffsetExactIff(page: int, limit: int)
    requires 1 <= page < TWO_63 && 1 <= limit <= 100
    ensures Offset(page, limit) == (page - 1) * limit <==> (page - 1) * limit < TWO_63
  {
    ProductGrows(page - 1, limit);
  }

  /** What a page past the end shows. Its offset is only known modulo 2^64: read as a negative number it is left out of
      the query and the first page comes back; else rows come back if it happens to fall inside the result. */
  lemma PagePastEnd<T>(rows: seq<T>, page: int, limit: int)
    requires 1 <= page < TWO_63 && 1 <= limit <= 100 && 0 < |rows| <= TWO_63 && (page - 1) * limit >= |rows|
    ensures var offset := (page - 1) * limit % (2 * TWO_63);
            && (Page(rows, page, limit) == [] <==> |rows| <= offset < TWO_63)
            && (offset == 0 || offset >= TWO_63 ==> Page(rows, page, limit) == Page(rows, 1, limit))
            && (0 < offset < |rows| ==> Page(rows, page, limit) == Fetch(rows[offset..], 0, limit))
  {
    WrapAsRemainder((page - 1) * limit);
    hide Wrap;
    PageStartsAt(rows, 1, limit);
  }

  /** 64-bit numbers from 2^63 on are the negative ones. */
  lemma WrapAsRemainder(x: int)
    ensures var m := x % (2 * TWO_63);
            Wrap(x) == if m < TWO_63 then m else m - 2 * TWO_63
  {
  }

  /** Beyond that, a page that should be empty may come back full: this one repeats page 1. */
  lemma OverflowRepeatsFirstPage<T>(rows: seq<T>)
    ensures Page(rows, TWO_63 / 2 + 1, 2) == Page(rows, 1, 2)
  {
    assert Offset(TWO_63 / 2 + 1, 2) == -TWO_63;
    assert Offset(1, 2) == 0;
  }
}
