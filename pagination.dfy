/** Paging arithmetic shared by the services (`offset := (page - 1) * limit`,
    then SQL OFFSET/LIMIT) and by every list response (`total_pages`). */
module Pagination {

  function Min(a: int, b: int): int {
    if a <= b then a else b
  }

  /** Go's integer division, which truncates toward zero (Dafny's `/` is
      Euclidean and differs for negative operands). */
  function GoDiv(a: int, b: int): (q: int)
    requires b != 0
    ensures a >= 0 && b > 0 ==> q == a / b
  {
    if a >= 0 then (if b > 0 then a / b else -(a / -b))
    else (if b > 0 then -((-a) / b) else (-a) / (-b))
  }

  /** `offset := (page - 1) * limit`. */
  function Offset(page: int, limit: int): (r: int)
    requires page >= 1 && limit >= 1
    ensures r >= 0
    ensures page == 1 <==> r == 0
  {
    MulNonNegative(page - 1, limit);
    (page - 1) * limit
  }

  lemma MulNonNegative(a: int, b: int)
    requires a >= 0 && b >= 0
    ensures a * b >= 0
  {
  }

  lemma MulMonotone(a: int, b: int, l: int)
    requires a <= b && l >= 0
    ensures a * l <= b * l
  {
    MulNonNegative(b - a, l);
  }

  /** The rows `... OFFSET offset LIMIT limit` returns from `rows`: at most
      `limit` of them, the ones at positions offset, offset + 1, ... */
  function Page<T>(rows: seq<T>, offset: nat, limit: nat): (r: seq<T>)
    ensures |r| <= limit
    ensures |r| == if offset >= |rows| then 0 else Min(limit, |rows| - offset)
    ensures forall i :: 0 <= i < |r| ==> r[i] == rows[offset + i]
  {
    if offset >= |rows| then [] else rows[offset..Min(offset + limit, |rows|)]
  }

  /** `total_pages = (total + limit - 1) / limit`: the ceiling of total/limit,
      so that the last page may be partly filled and no page is empty. */
  function TotalPages(total: nat, limit: int): (r: nat)
    requires limit >= 1
    ensures r == 0 <==> total == 0
    ensures (r - 1) * limit < total <= r * limit
  {
    var q := GoDiv(total + limit - 1, limit);
    assert q * limit <= total + limit - 1 < q * limit + limit;
    assert (q - 1) * limit == q * limit - limit;
    q
  }

  /** Page number `page` holds rows exactly when it does not exceed
      total_pages: the response's page count is the number of non-empty pages. */
  lemma PageNonEmptyIff<T>(rows: seq<T>, page: int, limit: int)
    requires page >= 1 && limit >= 1
    ensures Page(rows, Offset(page, limit), limit) != [] <==> page <= TotalPages(|rows|, limit)
  {
    var t := TotalPages(|rows|, limit);
    if page <= t {
      MulMonotone(page - 1, t - 1, limit);
    } else {
      MulMonotone(t, page - 1, limit);
    }
  }

  /** The concatenation of pages 1..k. */
  function FirstPages<T>(rows: seq<T>, limit: int, k: nat): seq<T>
    requires limit >= 1
  {
    if k == 0 then [] else FirstPages(rows, limit, k - 1) + Page(rows, Offset(k, limit), limit)
  }

  lemma {:induction false} FirstPagesArePrefix<T>(rows: seq<T>, limit: int, k: nat)
    requires limit >= 1
    ensures FirstPages(rows, limit, k) == rows[..Min(k * limit, |rows|)]
  {
    if k > 0 {
      FirstPagesArePrefix(rows, limit, k - 1);
      assert (k - 1) * limit == k * limit - limit;
      MulNonNegative(k - 1, limit);
      var a := Min((k - 1) * limit, |rows|);
      var b := Min(k * limit, |rows|);
      if (k - 1) * limit < |rows| {
        assert rows[..a] + rows[a..b] == rows[..b];
      }
    }
  }

  /** Reading pages 1, 2, ..., total_pages in turn returns every row exactly
      once and in order: paging loses and repeats nothing. */
  lemma PagesCoverAllRows<T>(rows: seq<T>, limit: int)
    requires limit >= 1
    ensures FirstPages(rows, limit, TotalPages(|rows|, limit)) == rows
  {
    FirstPagesArePrefix(rows, limit, TotalPages(|rows|, limit));
  }
}
