/**
 * `paginationAdapter`: turns the `[result, meta]` pair of the database pagination extension
 * into the `{ data, meta }` shape of the application. The extension's meta is modelled by its
 * three counters and the map of its other keys.
 */
module PaginationAdapter {
  import opened Wrappers
  import opened JsValues
  import Pagination

  /** The meta of the pagination extension. Counts are never negative. */
  datatype ExtensionMeta = ExtensionMeta(
    totalCount: nat,
    currentPage: int,
    pageCount: nat,
    others: map<string, Value>)

  datatype Adapted<T> = Adapted(data: seq<T>, meta: map<string, Value>)

  /** The keys the adapter drops from the extension's meta before spreading it. */
  const Omitted: set<string> := {"totalCount", "currentPage", "pageCount"}

  /** `Math.floor(totalCount / pageCount)` when there are pages, else 0. */
  function ItemsPerPage(meta: ExtensionMeta): (n: nat)
    ensures meta.pageCount > 0 ==> n * meta.pageCount <= meta.totalCount < (n + 1) * meta.pageCount
    ensures meta.pageCount == 0 ==> n == 0
  {
    if meta.pageCount > 0 then meta.totalCount / meta.pageCount else 0
  }

  /** The page size as written: the remainder of the total by the page count on the last page. */
  function PageSizeAsWritten(meta: ExtensionMeta): (n: nat)
    ensures meta.pageCount > 0 && meta.currentPage == meta.pageCount && meta.totalCount % meta.pageCount != 0
      ==> n == meta.totalCount % meta.pageCount
    ensures !(meta.pageCount > 0 && meta.currentPage == meta.pageCount && meta.totalCount % meta.pageCount != 0)
      ==> n == ItemsPerPage(meta)
  {
    if meta.pageCount > 0 && meta.currentPage == meta.pageCount then
      if meta.totalCount % meta.pageCount == 0 then ItemsPerPage(meta) else meta.totalCount % meta.pageCount
    else ItemsPerPage(meta)
  }

  /** The computed meta, then the extension's other keys spread over it. */
  function MetaWith(meta: ExtensionMeta, pageSize: int): (m: map<string, Value>)
    ensures m.Keys == {"itemsPerPage", "pageSize", "currentPage", "totalItems", "totalPages"} + (meta.others.Keys - Omitted)
    ensures forall k :: k in meta.others && k !in Omitted ==> m[k] == meta.others[k]
    ensures "itemsPerPage" !in meta.others ==> m["itemsPerPage"] == Num(ItemsPerPage(meta))
    ensures "pageSize" !in meta.others ==> m["pageSize"] == Num(pageSize)
    ensures m["currentPage"] == Num(meta.currentPage)
    ensures "totalItems" !in meta.others ==> m["totalItems"] == Num(meta.totalCount)
    ensures "totalPages" !in meta.others ==> m["totalPages"] == Num(meta.pageCount)
  {
    map[
      "itemsPerPage" := Num(ItemsPerPage(meta)),
      "pageSize" := Num(pageSize),
      "currentPage" := Num(meta.currentPage),
      "totalItems" := Num(meta.totalCount),
      "totalPages" := Num(meta.pageCount)]
    + (meta.others - Omitted)
  }

  /** `paginationAdapter` as written. */
  function Adapt<T>(result: seq<T>, meta: ExtensionMeta): (r: Adapted<T>)
    ensures r.data == result
    ensures r.meta.Keys == {"itemsPerPage", "pageSize", "currentPage", "totalItems", "totalPages"} + (meta.others.Keys - Omitted)
    ensures forall k :: k in meta.others && k !in Omitted ==> r.meta[k] == meta.others[k]
    ensures "pageSize" !in meta.others ==> r.meta["pageSize"] == Num(PageSizeAsWritten(meta))
    ensures "itemsPerPage" !in meta.others ==> r.meta["itemsPerPage"] == Num(ItemsPerPage(meta))
    ensures r.meta["currentPage"] == Num(meta.currentPage)
    ensures "totalItems" !in meta.others ==> r.meta["totalItems"] == Num(meta.totalCount)
    ensures "totalPages" !in meta.others ==> r.meta["totalPages"] == Num(meta.pageCount)
  {
    Adapted(result, MetaWith(meta, PageSizeAsWritten(meta)))
  }

  /**
   * The meta the extension reports for page `page` of `all` cut into pages of `limit` items,
   * the way the fake database cuts them.
   */
  function ExtensionPage<T>(all: seq<T>, limit: int, page: int): (r: (seq<T>, ExtensionMeta))
    requires limit >= 1 && page >= 1
    ensures r.1.pageCount == Pagination.PageCount(|all|, limit)
  {
    var cut := Pagination.Paginate(all, Some(limit), Some(page));
    (cut.data, ExtensionMeta(|all|, page, Pagination.PageCount(|all|, limit), map[]))
  }

  /**
   * As written, the last page of 25 items in pages of 10 holds 5 items but reports a page
   * size of 1, the remainder of 25 by the 3 pages.
   */
  lemma PageSizeAsWrittenMiscounts()
    ensures var (items, meta) := ExtensionPage(seq(25, k => k), 10, 3);
      && |items| == 5
      && Adapt(items, meta).meta["pageSize"] == Num(1)
  {
    var all := seq(25, k => k);
    assert Pagination.PageCount(25, 10) == 3;
    assert Pagination.Paginate(all, Some(10), Some(3)).data == all[20..25];
  }

  /** The corrected adapter: the page size is the number of items fetched for the page. */
  function AdaptCorrected<T>(result: seq<T>, meta: ExtensionMeta): (r: Adapted<T>)
    ensures r.data == result
    ensures "pageSize" in r.meta
    ensures "pageSize" !in meta.others ==> r.meta["pageSize"] == Num(|result|)
    ensures forall k :: k != "pageSize" ==> (k in r.meta <==> k in Adapt(result, meta).meta)
    ensures forall k :: k != "pageSize" && k in r.meta ==> r.meta[k] == Adapt(result, meta).meta[k]
  {
    Adapted(result, MetaWith(meta, |result|))
  }

  /**
   * For a page cut the way the fake database cuts it, the corrected page size is the number
   * of items on the page: `limit` before the last page, and what is left on the last one.
   */
  lemma {:induction false} CorrectedPageSizeCountsItems<T>(all: seq<T>, limit: int, page: int)
    requires limit >= 1 && 1 <= page <= Pagination.PageCount(|all|, limit)
    ensures var (items, meta) := ExtensionPage(all, limit, page);
      && AdaptCorrected(items, meta).meta["pageSize"]
           == Num(if page < meta.pageCount then limit else |all| - (page - 1) * limit)
  {
    Pagination.PagePosition(|all|, limit, page);
  }
}
