/** Pagination metadata of the product and order listings. */
module Pagination {
  import opened Results

  /** Page size when none is given: products (product.routes.js) and orders (order.routes.js). */
  const ProductPageSize := 12
  const OrderPageSize := 10

  datatype PageMeta = PageMeta(
    currentPage: int,
    totalPages: int,
    total: nat,
    hasNextPage: bool,
    hasPrevPage: bool,
    limit: int,
    skip: int)

  /** `parseInt(x) || d`: `None` stands for NaN, and 0 is falsy too. */
  function OrDefault(parsed: Option<int>, d: int): (r: int)
    ensures parsed.Some? && parsed.value != 0 ==> r == parsed.value
    ensures parsed.None? || parsed.value == 0 ==> r == d
  {
    match parsed
    case None => d
    case Some(v) => if v == 0 then d else v
  }

  /** `Math.ceil(a / b)` for integers, with b of either sign. */
  function CeilDiv(a: int, b: int): (r: int)
    requires b != 0
    ensures b > 0 ==> (r - 1) * b < a <= r * b
    ensures b < 0 ==> r * b <= a < (r - 1) * b
  {
    if b > 0 then
      if a % b == 0 then a / b else a / b + 1
    else
      a / b
  }

  /** The metadata for `total` matching documents, given the parsed `page` and `limit`
      query parameters (page defaults to 1, limit to `defaultLimit`). */
  function Paginate(page: Option<int>, limit: Option<int>, total: nat, defaultLimit: int): (m: PageMeta)
    requires defaultLimit > 0
    ensures m.currentPage == OrDefault(page, 1) && m.limit == OrDefault(limit, defaultLimit)
    ensures m.currentPage != 0 && m.limit != 0 && m.total == total
    ensures m.skip == (m.currentPage - 1) * m.limit
    ensures m.hasPrevPage <==> m.currentPage > 1
    ensures m.hasNextPage <==> m.currentPage * m.limit < total
    ensures m.limit > 0 ==> (m.totalPages - 1) * m.limit < total <= m.totalPages * m.limit
    ensures m.limit < 0 ==> m.totalPages * m.limit <= total < (m.totalPages - 1) * m.limit
  {
    var p := OrDefault(page, 1);
    var l := OrDefault(limit, defaultLimit);
    PageMeta(p, CeilDiv(total, l), total, p * l < total, p > 1, l, (p - 1) * l)
  }

  /** With a positive page size there is a next page exactly when the current page is
      before the last one. */
  lemma {:induction false} NextPageIffBeforeLast(page: Option<int>, limit: Option<int>, total: nat, defaultLimit: int)
    requires defaultLimit > 0
    requires OrDefault(limit, defaultLimit) > 0
    ensures var m := Paginate(page, limit, total, defaultLimit);
      m.hasNextPage <==> m.currentPage < m.totalPages
  {
    var m := Paginate(page, limit, total, defaultLimit);
    var p, l, t := m.currentPage, m.limit, m.totalPages;
    if p < t {
      assert p <= t - 1;
      MulMono(p, t - 1, l);
    } else {
      MulMono(t, p, l);
    }
  }

  lemma MulMono(x: int, y: int, l: int)
    requires x <= y && l > 0
    ensures x * l <= y * l
  {
  }

  /** With a positive page size and at least one document, the first document of the
      last page exists: `skip` of the last page is below the total. */
  lemma {:induction false} LastPageNotEmpty(limit: Option<int>, total: nat, defaultLimit: int)
    requires defaultLimit > 0
    requires OrDefault(limit, defaultLimit) > 0 && total > 0
    ensures var last := Paginate(Some(Paginate(None, limit, total, defaultLimit).totalPages), limit, total, defaultLimit);
      last.currentPage >= 1 && 0 <= last.skip < total
  {
    var m := Paginate(None, limit, total, defaultLimit);
    var t, l := m.totalPages, m.limit;
    assert t >= 1 by {
      if t <= 0 { MulMono(t, 0, l); }
    }
    var last := Paginate(Some(t), limit, total, defaultLimit);
    assert last.skip == (t - 1) * l < total;
    MulMono(0, t - 1, l);
  }
}
