/** Page arithmetic shared by the course listing (six per page) and the quiz
    attempt history (ten per page). */
module Pagination {

  /** The position `Array.prototype.slice` reads an index as: negative
      indices count from the end, and both ends are clamped to the array. */
  function SliceIndex(i: int, n: nat): (r: nat)
    ensures r <= n
    ensures 0 <= i <= n ==> r == i
  {
    if i < 0 then (if n + i < 0 then 0 else n + i) else if i > n then n else i
  }

  /** `xs.slice(start, end)` */
  function JsSlice<T>(xs: seq<T>, start: int, end: int): (r: seq<T>)
    ensures 0 <= start <= end <= |xs| ==> r == xs[start..end]
    ensures |r| <= |xs|
    ensures start <= end ==> |r| <= end - start
  {
    var from, to := SliceIndex(start, |xs|), SliceIndex(end, |xs|);
    SliceWidth(start, end, |xs|);
    if from < to then xs[from..to] else []
  }

  /** Two indices in order that are read in order are read no further
      apart than they are. */
  lemma SliceWidth(i: int, j: int, n: nat)
    ensures i <= j && SliceIndex(i, n) < SliceIndex(j, n) ==> SliceIndex(j, n) - SliceIndex(i, n) <= j - i
  {
  }

  /** `Math.ceil(n / size)` */
  function PageCount(n: nat, size: nat): (r: nat)
    requires size > 0
    ensures r * size >= n
    ensures n > 0 ==> (r - 1) * size < n
    ensures n == 0 ==> r == 0
  {
    (n + size - 1) / size
  }

  /** The items on 1-based page `page`: `xs.slice((page - 1) * size, page * size)`.
      Pages before the first read negative indices, which count from the end. */
  function Page<T>(xs: seq<T>, page: int, size: nat): (r: seq<T>)
    requires size > 0
    ensures |r| <= size
  {
    MulStep(page, size);
    JsSlice(xs, (page - 1) * size, page * size)
  }

  /** Up to `size` items of `xs` from position `start`. */
  function Prefix<T>(xs: seq<T>, start: nat, size: nat): (r: seq<T>)
    ensures |r| <= size
    ensures r == JsSlice(xs, start, start + size)
    ensures start < |xs| ==> |r| == (if start + size <= |xs| then size else |xs| - start)
    ensures forall k :: 0 <= k < |r| ==> start + k < |xs| && r[k] == xs[start + k]
  {
    if start >= |xs| then []
    else if start + size <= |xs| then xs[start..start + size]
    else xs[start..]
  }

  /** Pages 1 to `k`, one after the other. */
  function Pages<T>(xs: seq<T>, k: nat, size: nat): seq<T>
    requires size > 0
  {
    if k == 0 then [] else Pages(xs, k - 1, size) + Page(xs, k, size)
  }

  // ---------------------------------------------------------------- properties

  function Min(a: nat, b: nat): nat {
    if a <= b then a else b
  }

  lemma MulStep(k: int, size: nat)
    ensures k * size == (k - 1) * size + size
  {
  }

  lemma {:induction false} PagesArePrefix<T>(xs: seq<T>, k: nat, size: nat)
    requires size > 0
    ensures Pages(xs, k, size) == xs[..Min(k * size, |xs|)]
  {
    if k > 0 {
      PagesArePrefix(xs, k - 1, size);
      var start := (k - 1) * size;
      AppendPage(xs, k, size);
      MulStep(k, size);
      var a, b := Min(start, |xs|), Min(start + size, |xs|);
      assert Pages(xs, k, size) == xs[..a] + xs[a..b];
      assert xs[..a] + xs[a..b] == xs[..b];
      assert b == Min(k * size, |xs|);
    }
  }

  /** One more page appends the next run of the list. */
  lemma AppendPage<T>(xs: seq<T>, k: nat, size: nat)
    requires size > 0 && k >= 1
    ensures var start := (k - 1) * size;
      Pages(xs, k, size) == Pages(xs, k - 1, size) + xs[Min(start, |xs|)..Min(start + size, |xs|)]
  {
    PageIsPrefix(xs, k, size);
    PrefixIsSlice(xs, (k - 1) * size, size);
  }

  /** A page from the first on is the run of up to `size` items from its
      start. */
  lemma PageIsPrefix<T>(xs: seq<T>, page: int, size: nat)
    requires size > 0 && page >= 1
    ensures Page(xs, page, size) == Prefix(xs, (page - 1) * size, size)
  {
    var start := (page - 1) * size;
    MulStep(page, size);
    assert Page(xs, page, size) == JsSlice(xs, start, start + size);
  }

  /** The run of up to `size` items from `start`, as a slice of the list. */
  lemma PrefixIsSlice<T>(xs: seq<T>, start: nat, size: nat)
    ensures Prefix(xs, start, size) == xs[Min(start, |xs|)..Min(start + size, |xs|)]
  {
  }

  /** Page `page` holds the items from position `(page - 1) * size` on, in
      list order. */
  lemma PageItems<T>(xs: seq<T>, page: int, size: nat)
    requires size > 0
    ensures page >= 1 ==> forall k :: 0 <= k < |Page(xs, page, size)| ==>
      (page - 1) * size + k < |xs| && Page(xs, page, size)[k] == xs[(page - 1) * size + k]
  {
    if page >= 1 {
      assert Page(xs, page, size) == Prefix(xs, (page - 1) * size, size);
    }
  }

  /** Pages 1 to `PageCount` laid end to end give back the whole list, in
      order: every item is on exactly one page. */
  lemma PagesPartition<T>(xs: seq<T>, size: nat)
    requires size > 0
    ensures Pages(xs, PageCount(|xs|, size), size) == xs
  {
    PagesArePrefix(xs, PageCount(|xs|, size), size);
  }

  /** Every page up to `PageCount` has an item, and every page after it is
      empty. */
  lemma PagesInRange<T>(xs: seq<T>, page: int, size: nat)
    requires size > 0
    ensures 1 <= page <= PageCount(|xs|, size) ==> |Page(xs, page, size)| > 0
    ensures page > PageCount(|xs|, size) ==> Page(xs, page, size) == []
  {
    var n := PageCount(|xs|, size);
    if page > n {
      var start := (page - 1) * size;
      MulLe(n, page - 1, size);
      assert start >= |xs|;
      PageIsPrefix(xs, page, size);
    } else if 1 <= page {
      var start := (page - 1) * size;
      MulLe(page - 1, n - 1, size);
      assert start < |xs|;
      PageIsPrefix(xs, page, size);
    }
  }

  lemma MulLe(a: nat, b: nat, size: nat)
    requires a <= b
    ensures a * size <= b * size
  {
  }
}
