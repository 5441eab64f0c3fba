/**
 The table's pages: `getPaginatedData` slices 50 entries out of the
 filtered and sorted view, `totalPages` is `Math.ceil(length / 50)`, and
 the Previous and Next buttons clamp the page number.
 */
module Pagination {

  /** `itemsPerPage`. */
  const ItemsPerPage: nat := 50

  function Min(a: int, b: int): int {
    if a <= b then a else b
  }

  function Max(a: int, b: int): int {
    if a >= b then a else b
  }

  /** How `Array.prototype.slice` turns an index argument into a position: negative counts from the end. */
  function SliceIndex(i: int, len: nat): (r: nat)
    ensures r <= len
    ensures 0 <= i <= len ==> r == i
    ensures i < 0 ==> r == Max(len + i, 0)
    ensures i > len ==> r == len
  {
    if i < 0 then (if len + i < 0 then 0 else len + i) else if i > len then len else i
  }

  /** `s.slice(start, end)`. */
  function Slice<T>(s: seq<T>, start: int, end: int): seq<T> {
    var from, to := SliceIndex(start, |s|), SliceIndex(end, |s|);
    if from <= to then s[from..to] else []
  }

  /**
   `getPaginatedData()` on page `page`: at most 50 entries, starting at
   `(page - 1) * 50`; page 0, which the Next button can produce, is empty.
   */
  function PageOf<T>(data: seq<T>, page: int): (r: seq<T>)
    requires page >= 0
    ensures |r| <= ItemsPerPage
    ensures page >= 1 ==> r == data[Min((page - 1) * ItemsPerPage, |data|)..Min(page * ItemsPerPage, |data|)]
    ensures page == 0 ==> r == []
  {
    var start := (page - 1) * ItemsPerPage;
    Slice(data, start, start + ItemsPerPage)
  }

  /** `Math.ceil(n / itemsPerPage)`. */
  function TotalPages(n: nat): (r: nat)
    ensures r * ItemsPerPage >= n
    ensures r == 0 || (r - 1) * ItemsPerPage < n
    ensures r == 0 <==> n == 0
  {
    (n + ItemsPerPage - 1) / ItemsPerPage
  }

  /** Pages `1..k` one after the other. */
  function Pages<T>(data: seq<T>, k: nat): seq<T> {
    if k == 0 then [] else Pages(data, k - 1) + PageOf(data, k)
  }

  lemma {:induction false} PagesPrefix<T>(data: seq<T>, k: nat)
    ensures Pages(data, k) == data[..Min(k * ItemsPerPage, |data|)]
  {
    if k > 0 {
      PagesPrefix(data, k - 1);
      var a, b := Min((k - 1) * ItemsPerPage, |data|), Min(k * ItemsPerPage, |data|);
      assert data[..a] + data[a..b] == data[..b];
    }
  }

  /** Reading pages 1 to `totalPages` in order gives back the whole view. */
  lemma PagesCoverAll<T>(data: seq<T>)
    ensures Pages(data, TotalPages(|data|)) == data
  {
    PagesPrefix(data, TotalPages(|data|));
  }

  /** The Previous button: `Math.max(prev - 1, 1)`. */
  function Previous(page: int): (r: int)
    ensures r >= 1
    ensures page > 1 ==> r == page - 1
    ensures page <= 1 ==> r == 1
  {
    Max(page - 1, 1)
  }

  /** The Next button: `Math.min(prev + 1, totalPages)`, 0 when there are no pages. */
  function Next(page: int, totalPages: nat): (r: int)
    ensures r <= totalPages
    ensures page < totalPages ==> r == page + 1
    ensures page >= totalPages ==> r == totalPages
  {
    Min(page + 1, totalPages)
  }

  /** Next then Previous, and Previous then Next, return to the page inside the range. */
  lemma NextPreviousRoundTrip(page: int, totalPages: nat)
    ensures 1 <= page < totalPages ==> Previous(Next(page, totalPages)) == page
    ensures 1 < page <= totalPages ==> Next(Previous(page), totalPages) == page
  {
  }
}
