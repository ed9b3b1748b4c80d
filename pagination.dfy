/**
 * The client-side pagination shared by the course and user tables: ten rows
 * per page, 1-based page numbers, `Array.prototype.slice` for the page's rows,
 * the Prev/Next handlers and the "Showing a - b of n" caption.
 */
module Pagination {

  /** Rows per page (`perPage`). */
  const PerPage: nat := 10

  /** `Math.ceil(n / perPage)`: the fewest pages that hold `n` rows; there is no minimum of one page. */
  function TotalPages(n: nat): (r: nat)
    ensures r * PerPage >= n
    ensures r == 0 || (r - 1) * PerPage < n
  {
    (n + PerPage - 1) / PerPage
  }

  /** No rows means no pages, and any row means at least one page. */
  lemma TotalPagesZeroIff(n: nat)
    ensures TotalPages(n) == 0 <==> n == 0
  {
  }

  /**
   * How `Array.prototype.slice` resolves an index against a length `len`:
   * a negative index counts back from the end, and the result is clamped to `0..len`.
   */
  function RelativeIndex(k: int, len: nat): (r: nat)
    ensures r <= len
    ensures k >= 0 ==> r == if k <= len then k else len
    ensures k < 0 ==> r == if len + k >= 0 then len + k else 0
  {
    if k < 0 then (if len + k < 0 then 0 else len + k)
    else if k > len then len
    else k
  }

  /** `s.slice(start, end)`. */
  function Slice<T>(s: seq<T>, start: int, end: int): seq<T> {
    var from, to := RelativeIndex(start, |s|), RelativeIndex(end, |s|);
    if from < to then s[from..to] else []
  }

  /** `s.slice((page - 1) * perPage, page * perPage)`: the rows shown on page `page`. */
  function PageSlice<T>(s: seq<T>, page: nat): seq<T> {
    Slice(s, (page - 1) * PerPage, page * PerPage)
  }

  function Min(a: int, b: int): int {
    if a <= b then a else b
  }

  /**
   * A page holds at most ten rows; every page from 1 to `TotalPages` holds at least one,
   * namely the rows `(page - 1) * 10` up to `page * 10` of the list; page 0 and
   * every page after the last are empty.
   */
  lemma PageSliceShape<T>(s: seq<T>, page: nat)
    ensures |PageSlice(s, page)| <= PerPage
    ensures page == 0 || page > TotalPages(|s|) ==> PageSlice(s, page) == []
    ensures 1 <= page <= TotalPages(|s|) ==>
      PageSlice(s, page) != [] &&
      PageSlice(s, page) == s[(page - 1) * PerPage..Min(page * PerPage, |s|)]
  {
    if page == 0 {
      assert RelativeIndex(page * PerPage, |s|) == 0;
    } else if page > TotalPages(|s|) {
      assert (page - 1) * PerPage >= TotalPages(|s|) * PerPage;
    } else {
      assert (page - 1) * PerPage <= (TotalPages(|s|) - 1) * PerPage;
    }
  }

  /** The row at index `i` of page `page` is the list's row `(page - 1) * 10 + i`. */
  lemma PageSliceAt<T>(s: seq<T>, page: nat, i: nat)
    requires i < |PageSlice(s, page)|
    ensures page >= 1 && (page - 1) * PerPage + i < |s|
    ensures PageSlice(s, page)[i] == s[(page - 1) * PerPage + i]
  {
    PageSliceShape(s, page);
  }

  /** Pages 1 to `k`, one after the other. */
  function Pages<T>(s: seq<T>, k: nat): seq<T> {
    if k == 0 then [] else Pages(s, k - 1) + PageSlice(s, k)
  }

  /** Pages 1 to `k` are the first `k * 10` rows of the list (or all of them). */
  lemma {:induction false} PagesArePrefix<T>(s: seq<T>, k: nat)
    ensures Pages(s, k) == s[..Min(k * PerPage, |s|)]
  {
    if k > 0 {
      PagesArePrefix(s, k - 1);
      PageSliceShape(s, k);
      var lo := Min((k - 1) * PerPage, |s|);
      if (k - 1) * PerPage < |s| {
        assert 1 <= k <= TotalPages(|s|);
        assert s[..Min(k * PerPage, |s|)] == s[..lo] + s[lo..Min(k * PerPage, |s|)];
      } else {
        assert k > TotalPages(|s|);
      }
    }
  }

  /** Leafing through all pages shows every row of the list exactly once, in order. */
  lemma PagesCoverList<T>(s: seq<T>)
    ensures Pages(s, TotalPages(|s|)) == s
  {
    PagesArePrefix(s, TotalPages(|s|));
  }

  /** The Prev button's update `Math.max(p - 1, 1)`. */
  function Prev(p: nat): nat {
    if p - 1 > 1 then p - 1 else 1
  }

  /** The Next button's update `Math.min(p + 1, totalPages)`. */
  function Next(p: nat, totalPages: nat): nat {
    if p + 1 < totalPages then p + 1 else totalPages
  }

  /** Prev is disabled on page 1. */
  predicate PrevDisabled(p: nat) {
    p == 1
  }

  /** Next is disabled on the last page. */
  predicate NextDisabled(p: nat, totalPages: nat) {
    p == totalPages
  }

  /**
   * From a page in `1..totalPages`, Prev goes one page back and Next one page on,
   * and neither leaves that range; a disabled button's update would change nothing.
   */
  lemma PrevNextInRange(p: nat, totalPages: nat)
    requires 1 <= p <= totalPages
    ensures 1 <= Prev(p) <= totalPages && 1 <= Next(p, totalPages) <= totalPages
    ensures Prev(p) == if p == 1 then 1 else p - 1
    ensures Next(p, totalPages) == if p == totalPages then p else p + 1
    ensures PrevDisabled(p) ==> Prev(p) == p
    ensures NextDisabled(p, totalPages) ==> Next(p, totalPages) == p
  {
  }

  /** With no pages, Next is enabled on page 1 and moves to page 0, which shows no rows. */
  lemma NextWithoutPages(p: nat)
    requires p >= 1
    ensures !NextDisabled(p, 0) && Next(p, 0) == 0
  {
  }

  /** The "No" column: `(page - 1) * perPage + index + 1`. */
  function RowNumber(page: nat, index: nat): int {
    (page - 1) * PerPage + index + 1
  }

  /** The "Showing a - b of n" caption. */
  datatype Range = Range(first: int, last: int, total: nat)

  function ShownRange(page: nat, total: nat): Range {
    Range((page - 1) * PerPage + 1, Min(page * PerPage, total), total)
  }

  /**
   * On a page in `1..TotalPages`, the caption counts exactly the rows shown:
   * it runs from the first row's number to the last row's number, and the row
   * numbered `k` is the list's `k`-th row.
   */
  lemma RangeMatchesRows<T>(s: seq<T>, page: nat)
    requires 1 <= page <= TotalPages(|s|)
    ensures var rows, range := PageSlice(s, page), ShownRange(page, |s|);
      range.last - range.first + 1 == |rows| &&
      range.first == RowNumber(page, 0) &&
      range.last == RowNumber(page, |rows| - 1) &&
      forall i :: 0 <= i < |rows| ==> 1 <= RowNumber(page, i) <= |s| && rows[i] == s[RowNumber(page, i) - 1]
  {
    PageSliceShape(s, page);
  }
}
