/** `generatePagination`: the pagination metadata every listing answers with. */
module Pagination {

  datatype PaginationResult = PaginationResult(
    total: int, page: int, limit: int, pages: int, hasNext: bool, hasPrev: bool)

  /** Floor of a / b for b != 0 (Dafny's `/` is Euclidean, which is the floor for b > 0). */
  function FloorDiv(a: int, b: int): int
    requires b != 0
  {
    if b > 0 then a / b else (-a) / (-b)
  }

  /** `Math.ceil(a / b)` for a nonzero integer divisor. */
  function CeilDiv(a: int, b: int): int
    requires b != 0
  {
    -FloorDiv(-a, b)
  }

  /** For a positive divisor, the ceiling is the least multiple count covering `a`. */
  lemma CeilDivBounds(a: int, b: int)
    requires b > 0
    ensures (CeilDiv(a, b) - 1) * b < a <= CeilDiv(a, b) * b
  {
    var q := (-a) / b;
    var r := (-a) % b;
    assert -a == q * b + r && 0 <= r < b;
    assert CeilDiv(a, b) == -q;
    assert a == (-q) * b - r;
    assert (-q - 1) * b == (-q) * b - b;
  }

  /** `generatePagination(total, page, limit)`. The caller never passes a zero limit:
      `parseInt(limit) || 10` replaces 0 by the default. */
  function GeneratePagination(total: int, page: int, limit: int): (r: PaginationResult)
    requires limit != 0
    ensures r.total == total && r.page == page && r.limit == limit
    ensures r.hasNext <==> page < r.pages
    ensures r.hasPrev <==> page > 1
    ensures limit > 0 && total > 0 ==> (r.pages - 1) * limit < total <= r.pages * limit
    ensures limit > 0 && total == 0 ==> r.pages == 0
  {
    var pages := CeilDiv(total, limit);
    var r := PaginationResult(total, page, limit, pages, page < pages, page > 1);
    if limit > 0 then CeilDivBounds(total, limit); r else r
  }

  /** With a positive limit, `pages` is exactly the number of non-empty pages: page p
      (1-based) holds a document iff p <= pages. */
  lemma {:induction false} PagesCountNonEmptyPages(total: nat, limit: int, p: int)
    requires limit > 0 && p >= 1
    ensures (p - 1) * limit < total <==> p <= GeneratePagination(total, 1, limit).pages
  {
    var pages := GeneratePagination(total, 1, limit).pages;
    if total == 0 {
      assert pages == 0;
      ScaleMonotone(limit, 0, p - 1);
    } else if p <= pages {
      ScaleMonotone(limit, p - 1, pages - 1);
    } else {
      ScaleMonotone(limit, pages, p - 1);
    }
  }

  /** Multiplying by a positive factor, such as a page limit, keeps the order. */
  lemma ScaleMonotone(limit: int, a: int, b: int)
    requires limit > 0 && a <= b
    ensures a * limit <= b * limit
  {
    assert b * limit - a * limit == (b - a) * limit;
  }

  /** An empty result has no pages and no next page, from any page a listing can reach. */
  lemma EmptyHasNoNext(page: int, limit: int)
    requires limit > 0 && page >= 1
    ensures GeneratePagination(0, page, limit).pages == 0
    ensures !GeneratePagination(0, page, limit).hasNext
  {
  }
}
