/** The pagination arithmetic the listing pages share:
    `Math.ceil(n / itemsPerPage)`, the `slice` window of a page, the
    reset-to-first-page rule and the list of page numbers. */
module Pagination {

  /** A page number as the components hold it: 1-based, never below 1. */
  type PageNo = p: int | p >= 1 witness 1

  /** `Math.ceil(n / size)`: the fewest pages of `size` items that hold `n` items. */
  function TotalPages(n: nat, size: nat): (t: nat)
    requires size > 0
    ensures n <= t * size
    ensures t == 0 || (t - 1) * size < n
    ensures t == 0 <==> n == 0
  {
    var m := n + size - 1;
    var t := m / size;
    assert m == t * size + m % size;
    assert (t - 1) * size == t * size - size;
    t
  }

  /** First index of page `page`. */
  function PageStart(page: PageNo, size: nat): nat
  {
    (page - 1) * size
  }

  /** `s.slice((page - 1) * size, (page - 1) * size + size)`. */
  function PageSlice<T>(s: seq<T>, page: PageNo, size: nat): (r: seq<T>)
    ensures |r| <= size
    ensures PageStart(page, size) >= |s| ==> r == []
    ensures PageStart(page, size) < |s| ==>
      |r| == (if |s| - PageStart(page, size) < size then |s| - PageStart(page, size) else size)
    ensures forall k :: 0 <= k < |r| ==> r[k] == s[PageStart(page, size) + k]
  {
    var start := PageStart(page, size);
    var end := start + size;
    if start >= |s| then []
    else if end >= |s| then s[start..]
    else s[start..end]
  }

  /** The reset rule of `updatePagination` on the favorites and profile pages:
      `if (currentPage > totalPages) currentPage = 1; if (totalPages === 0) currentPage = 1;`.
      A page beyond the last one goes back to the first, not to the last. */
  function ResetPage(page: PageNo, total: nat): (p: PageNo)
    ensures page <= total ==> p == page
    ensures page > total ==> p == 1
    ensures total == 0 ==> p == 1
  {
    var p := if page > total then 1 else page;
    if total == 0 then 1 else p
  }

  /** The `goToPage` guard: only pages `1..totalPages` are accepted. */
  predicate AcceptsPage(page: int, total: nat)
  {
    page >= 1 && page <= total
  }

  /** `Array(total).fill(0).map((x, i) => i + 1)`: the page numbers `1..total`. */
  function PageNumbers(total: nat): (r: seq<int>)
    ensures |r| == total
    ensures forall i :: 0 <= i < total ==> r[i] == i + 1
  {
    if total == 0 then [] else PageNumbers(total - 1) + [total]
  }

  /** Every item of the list is shown on exactly one page: item `k` is entry
      `k % size` of page `k / size + 1`, and that page exists. */
  lemma ItemOnPage<T>(s: seq<T>, size: nat, k: nat)
    requires size > 0 && k < |s|
    ensures k / size + 1 <= TotalPages(|s|, size)
    ensures k % size < |PageSlice(s, k / size + 1, size)|
    ensures PageSlice(s, k / size + 1, size)[k % size] == s[k]
  {
    var q, r := k / size, k % size;
    var t := TotalPages(|s|, size);
    assert k == q * size + r;
    assert PageStart(q + 1, size) == q * size;
    if q + 1 > t {
      assert q >= t;
      MulMonotone(t, q, size);
      assert false;
    }
  }

  lemma MulMonotone(a: nat, b: nat, c: nat)
    requires a <= b
    ensures a * c <= b * c
  {
  }

  /** After the reset, a non-empty list always shows a non-empty page. */
  lemma ResetPageShowsItems<T>(s: seq<T>, page: PageNo, size: nat)
    requires size > 0 && |s| > 0
    ensures PageSlice(s, ResetPage(page, TotalPages(|s|, size)), size) != []
  {
    var t := TotalPages(|s|, size);
    var p := ResetPage(page, t);
    assert PageStart(p, size) == (p - 1) * size;
    MulMonotone(p - 1, t - 1, size);
  }
}
