/**
 * What `getUsersFromDB` and `getAllTripsFromDB` share once their `where` tree
 * is built: pagination, the order, one `findMany` and one `count` with the
 * same `where`, and the `{ meta, data }` result.
 */
module Listing {
  import opened Wrappers
  import opened Json
  import opened Where
  import opened Errors
  import opened Pagination
  import opened Repository

  datatype Meta = Meta(page: int, limit: int, total: nat)

  datatype Page<R> = Page(meta: Meta, data: seq<R>)

  /**
   * `options.sortBy && options.sortOrder ? { [sortBy]: sortOrder } : { createdAt: 'desc' }`,
   * read from the raw options rather than from calculatePagination's result.
   */
  function OrderFor(o: Options): OrderBy {
    if TextOr(o.sortBy, "") != "" && TextOr(o.sortOrder, "") != "" then OrderBy(o.sortBy.value, o.sortOrder.value)
    else OrderBy(DefaultSortBy, DefaultSortOrder)
  }

  /** One listing: the page from `findMany` and the total from `count`, both under the same `where`. */
  function ListPage<R(==,!new)>(rows: seq<R>, view: (R, Path) -> Option<Json>, schema: Schema, where: Pred, o: Options)
    : (r: Result<Page<R>, Thrown>)
    ensures r.Success? <==>
      Accepts(schema, where) && OrderAccepted(schema, OrderFor(o)) && CalculatePagination(o).skip >= 0
    ensures r.Failure? ==> r.error == ValidationFailure
    ensures r.Success? ==>
      var p := CalculatePagination(o);
      && r.value.meta == Meta(p.page, p.limit, |Filter(rows, where, view)|)
      && r.value.data == Window(Sort(Filter(rows, where, view), OrderFor(o), view), p.skip, p.limit)
      && Ordered(OrderFor(o), view, r.value.data)
  {
    var p := CalculatePagination(o);
    var found := FindMany(rows, view, schema, Query(where, p.skip, p.limit, OrderFor(o)));
    if found.Failure? then Failure(found.error)
    else
      var total := Count(rows, view, schema, where).value;
      Success(Page(Meta(p.page, p.limit, total), found.value))
  }

  /** The page holds matching stored rows only, no more than the total, and as many as the page and limit leave of them. */
  lemma ListPageRows<R(!new)>(rows: seq<R>, view: (R, Path) -> Option<Json>, schema: Schema, where: Pred, o: Options)
    ensures var r := ListPage(rows, view, schema, where, o);
      r.Success? ==>
        var p := CalculatePagination(o);
        && (forall x :: x in r.value.data ==> x in rows && Matches(where, x, view))
        && |r.value.data| <= r.value.meta.total
        && (p.limit > 0 ==> |r.value.data| == Min(p.limit, Max(0, r.value.meta.total - p.skip)))
        && (p.limit < 0 ==> |r.value.data| == Min(-p.limit, Max(0, r.value.meta.total - p.skip)))
  {
    var p := CalculatePagination(o);
    FindManyRows(rows, view, schema, Query(where, p.skip, p.limit, OrderFor(o)));
  }

  /** The order is the requested one only when both sortBy and sortOrder are given; one of them alone still sorts newest first, although calculatePagination echoes it. */
  lemma OrderNeedsBoth(o: Options)
    ensures OrderFor(o) == OrderBy(CalculatePagination(o).sortBy, CalculatePagination(o).sortOrder)
        <==> (o.sortBy.Some? && o.sortBy.value != "") == (o.sortOrder.Some? && o.sortOrder.value != "")
             || (TextOr(o.sortBy, DefaultSortBy) == DefaultSortBy && TextOr(o.sortOrder, DefaultSortOrder) == DefaultSortOrder)
    ensures (o.sortBy.Some? && o.sortBy.value != "") != (o.sortOrder.Some? && o.sortOrder.value != "")
        ==> OrderFor(o) == OrderBy("createdAt", "desc")
  {
  }
}
