/**
 * `paginate` of the fake database: cuts one page out of an in-memory list and describes it.
 * The page parameters are optional integers; a missing or non-positive one becomes 1.
 */
module Pagination {
  import opened Wrappers

  datatype PageMeta = PageMeta(
    itemsPerPage: int,
    pageSize: int,
    currentPage: int,
    totalPages: int,
    totalItems: int)

  datatype PageResult<T> = PageResult(data: seq<T>, meta: PageMeta)

  /** A missing parameter, or one below 1, is taken as 1. */
  function AtLeastOne(p: Option<int>): (r: int)
    ensures r >= 1
    ensures p.Some? && p.value >= 1 ==> r == p.value
    ensures p.None? || p.value < 1 ==> r == 1
  {
    if p.None? || p.value < 1 then 1 else p.value
  }

  /** `Array.prototype.slice(start, end)` for non-negative bounds: both are clipped to the length. */
  function Slice<T>(s: seq<T>, start: nat, end: nat): (r: seq<T>)
    ensures |r| <= |s|
    ensures start <= end && end <= |s| ==> r == s[start..end]
    ensures start <= |s| && |s| <= end ==> r == s[start..]
    ensures |s| <= start || end <= start ==> r == []
  {
    var hi := if end < |s| then end else |s|;
    if start < hi then s[start..hi] else []
  }

  lemma MulMonotone(a: int, b: int, l: int)
    requires a >= b && l >= 0
    ensures a * l >= b * l
  {
    assert a * l - b * l == (a - b) * l;
  }

  lemma DivMod(n: nat, l: int)
    requires l >= 1
    ensures n == (n / l) * l + n % l && 0 <= n % l < l
  {
  }

  lemma Distribute(q: int, l: int)
    ensures (q + 1) * l == q * l + l
    ensures (q - 1) * l == q * l - l
  {
  }

  /** The number of pages: `ceil(n / limit)`. */
  function PageCount(n: nat, limit: int): (pages: nat)
    requires limit >= 1
    ensures n <= pages * limit
    ensures pages > 0 ==> (pages - 1) * limit < n
  {
    var q, r := n / limit, n % limit;
    DivMod(n, limit);
    Distribute(q, limit);
    if r == 0 then q else q + 1
  }

  /** `paginate` as written. */
  function Paginate<T>(data: seq<T>, limit: Option<int>, currentPage: Option<int>): (r: PageResult<T>)
    ensures var l, p := AtLeastOne(limit), AtLeastOne(currentPage);
      && r.meta.itemsPerPage == l
      && r.meta.currentPage == p
      && r.meta.totalItems == |data|
      && r.meta.totalPages == PageCount(|data|, l)
      && (p - 1) * l >= 0
      && r.data == Slice(data, (p - 1) * l, (p - 1) * l + l)
      && (p == PageCount(|data|, l) ==> r.meta.pageSize == (if |data| % l != 0 then |data| % l else l))
      && (p != PageCount(|data|, l) ==> r.meta.pageSize == l)
  {
    var l := AtLeastOne(limit);
    var p := AtLeastOne(currentPage);
    MulMonotone(p - 1, 0, l);
    var startIndex := if p > 1 then (p - 1) * l else 0;
    assert p * l == (p - 1) * l + l;
    var items := Slice(data, startIndex, p * l);
    var totalPages := if |data| % l == 0 then |data| / l else |data| / l + 1;
    var remainder := if |data| % l != 0 then |data| % l else l;
    var actualItems := if p == totalPages then remainder else l;
    PageResult(items, PageMeta(l, actualItems, p, totalPages, |data|))
  }

  /** A page holds at most `limit` elements: those from the start of the page onwards. */
  lemma PageBounds<T>(data: seq<T>, limit: Option<int>, currentPage: Option<int>)
    ensures var l, p := AtLeastOne(limit), AtLeastOne(currentPage);
      var page := Paginate(data, limit, currentPage).data;
      && |page| <= l
      && forall k :: 0 <= k < |page| ==> (p - 1) * l + k < |data| && page[k] == data[(p - 1) * l + k]
  {
    var l, p := AtLeastOne(limit), AtLeastOne(currentPage);
    var lo := (p - 1) * l;
    var page := Paginate(data, limit, currentPage).data;
    assert lo >= 0 && page == Slice(data, lo, lo + l);
    if lo + l <= |data| {
      assert page == data[lo..lo + l];
    } else if lo <= |data| {
      assert page == data[lo..];
    } else {
      assert page == [];
    }
  }

  /** The data of pages `from` to `last`, one after the other. */
  function Pages<T>(data: seq<T>, limit: int, from: nat, last: nat): seq<T>
    requires from >= 1
    decreases last + 1 - from
  {
    if from > last then [] else Paginate(data, Some(limit), Some(from)).data + Pages(data, limit, from + 1, last)
  }

  /**
   * Reading pages `from` onwards up to the last page gives back the data from the start of
   * page `from`.
   */
  lemma {:induction false} PagesFrom<T>(data: seq<T>, limit: int, from: nat)
    requires limit >= 1 && from >= 1
    requires (from - 1) * limit <= |data|
    ensures Pages(data, limit, from, PageCount(|data|, limit)) == data[(from - 1) * limit..]
    decreases |data| - (from - 1) * limit
  {
    var last := PageCount(|data|, limit);
    var lo := (from - 1) * limit;
    var page := Paginate(data, Some(limit), Some(from)).data;
    PagePosition(|data|, limit, from);
    if from > last {
    } else if lo + limit >= |data| {
      assert page == data[lo..];
      assert Pages(data, limit, from + 1, last) == [];
    } else {
      PagesFrom(data, limit, from + 1);
      assert page == data[lo..lo + limit];
      assert data[lo..] == data[lo..lo + limit] + data[lo + limit..];
    }
  }

  /** Where page `from` starts relative to the end of `n` elements. */
  lemma PagePosition(n: nat, limit: int, from: int)
    requires limit >= 1 && from >= 1
    ensures var last, lo := PageCount(n, limit), (from - 1) * limit;
      && from * limit == lo + limit
      && (from > last ==> lo >= n)
      && (from <= last ==> lo < n)
      && (from < last ==> lo + limit < n)
  {
    var last := PageCount(n, limit);
    if from > last {
      MulMonotone(from - 1, last, limit);
    } else {
      MulMonotone(last - 1, from - 1, limit);
      if from < last {
        MulMonotone(last - 1, from, limit);
      }
    }
  }

  /** Concatenating pages 1 to the last page reproduces the input exactly. */
  lemma AllPages<T>(data: seq<T>, limit: int)
    requires limit >= 1
    ensures Pages(data, limit, 1, PageCount(|data|, limit)) == data
  {
    PagesFrom(data, limit, 1);
  }

  /** A page after the last one holds no data. */
  lemma PastTheEnd<T>(data: seq<T>, limit: int, p: int)
    requires limit >= 1 && p > PageCount(|data|, limit)
    ensures Paginate(data, Some(limit), Some(p)).data == []
  {
    MulMonotone(p - 1, PageCount(|data|, limit), limit);
  }

  // ---------------------------------------------------------------------------------------
  // The reported page size
  // ---------------------------------------------------------------------------------------

  /**
   * As written, a page after the last one reports a full `pageSize` while it holds nothing:
   * an empty list asked for page 1 of 10 reports 10 items.
   */
  lemma PageSizeAsWrittenPastTheEnd()
    ensures var r := Paginate<int>([], Some(10), Some(1));
      r.data == [] && r.meta.pageSize == 10
  {
  }

  /**
   * The corrected `paginate`: `pageSize` is the number of items on the page actually cut out,
   * and the data and every other meta field are those of `paginate`.
   */
  function PaginateCorrected<T>(data: seq<T>, limit: Option<int>, currentPage: Option<int>): (r: PageResult<T>)
    ensures r.meta.pageSize == |r.data|
    ensures r.data == Paginate(data, limit, currentPage).data
    ensures r.meta == Paginate(data, limit, currentPage).meta.(pageSize := |r.data|)
    ensures AtLeastOne(currentPage) > PageCount(|data|, AtLeastOne(limit)) ==> r.meta.pageSize == 0
  {
    var r := Paginate(data, limit, currentPage);
    var l, p := AtLeastOne(limit), AtLeastOne(currentPage);
    assert p > PageCount(|data|, l) ==> r.data == [] by {
      if p > PageCount(|data|, l) {
        PastTheEnd(data, l, p);
        assert Paginate(data, Some(l), Some(p)).data == r.data;
      }
    }
    r.(meta := r.meta.(pageSize := |r.data|))
  }

  /** Up to the last page the corrected size is the size `paginate` computes. */
  lemma {:induction false} PageSizeAgreesUpToLastPage<T>(data: seq<T>, limit: Option<int>, currentPage: Option<int>)
    requires AtLeastOne(currentPage) <= PageCount(|data|, AtLeastOne(limit))
    ensures PaginateCorrected(data, limit, currentPage).meta == Paginate(data, limit, currentPage).meta
  {
    var l, p := AtLeastOne(limit), AtLeastOne(currentPage);
    var n := |data|;
    var last := PageCount(n, l);
    var lo := (p - 1) * l;
    var page := Paginate(data, limit, currentPage).data;
    assert p * l == lo + l;
    if p == last {
      var q, r := n / l, n % l;
      DivMod(n, l);
      assert lo < n;
      if r == 0 {
        assert p == q;
        assert lo + l == n;
      } else {
        assert p == q + 1;
        assert lo == q * l;
      }
      assert page == data[lo..];
    } else {
      MulMonotone(last - 1, p, l);
      assert lo + l <= (last - 1) * l < n;
      assert page == data[lo..lo + l];
    }
  }
}
