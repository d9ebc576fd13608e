/** `calculatePagination` (src/helpers/paginationHelper.ts): raw listing options to page, limit, skip and sort. */
module Pagination {
  import opened Wrappers
  import opened Json

  /** The listing options as they arrive: page and limit are whatever the query held, sortBy and sortOrder are text. */
  datatype Options = Options(page: Option<Json>, limit: Option<Json>, sortBy: Option<string>, sortOrder: Option<string>)

  datatype Paging = Paging(page: int, limit: int, skip: int, sortBy: string, sortOrder: string)

  const DefaultPage := 1
  const DefaultLimit := 5
  const DefaultSortBy := "createdAt"
  const DefaultSortOrder := "desc"

  /** `Number(x) || fallback`: NaN and 0 are falsy and give the fallback; every other number, negative ones too, is kept. */
  function NumberOr(x: Option<Json>, fallback: int): (r: int)
    ensures r == fallback || ToNumber(x) == Some(r)
    ensures ToNumber(x).Some? && ToNumber(x).value != 0 ==> r == ToNumber(x).value
    ensures ToNumber(x) in {None, Some(0)} ==> r == fallback
  {
    var n := ToNumber(x);
    if n.Some? && n.value != 0 then n.value else fallback
  }

  /** `s || fallback` for optional text: absent and empty text give the fallback. */
  function TextOr(s: Option<string>, fallback: string): (r: string)
    ensures r == fallback || (s.Some? && r == s.value && r != "")
  {
    if s.Some? && s.value != "" then s.value else fallback
  }

  /** Total: every input has a result; there is no clamping and no failure. */
  function CalculatePagination(o: Options): (p: Paging)
    ensures p.page == NumberOr(o.page, DefaultPage) && p.limit == NumberOr(o.limit, DefaultLimit)
    ensures p.skip == (p.page - 1) * p.limit
    ensures p.page != 0 && p.limit != 0
    ensures p.sortBy != "" && p.sortOrder != ""
  {
    var page := NumberOr(o.page, DefaultPage);
    var limit := NumberOr(o.limit, DefaultLimit);
    Paging(page, limit, (page - 1) * limit, TextOr(o.sortBy, DefaultSortBy), TextOr(o.sortOrder, DefaultSortOrder))
  }

  /** With no options at all: page 1, limit 5, skip 0, newest first. */
  lemma AbsentOptionsDefaults()
    ensures CalculatePagination(Options(None, None, None, None)) == Paging(1, 5, 0, "createdAt", "desc")
  {
  }

  /** A page or limit that is 0 or not a number falls back to its default, each on its own; a page that falls back skips nothing. */
  lemma ZeroOrNaNFallsBack(o: Options)
    ensures ToNumber(o.page) in {None, Some(0)} ==> CalculatePagination(o).page == DefaultPage && CalculatePagination(o).skip == 0
    ensures ToNumber(o.limit) in {None, Some(0)} ==> CalculatePagination(o).limit == DefaultLimit
  {
  }

  /** Any other number passes through unchanged, each on its own and negative ones included, and skip follows it: page -1 skips -2 pages' worth. */
  lemma NumbersPassThrough(o: Options)
    ensures ToNumber(o.page).Some? && ToNumber(o.page).value != 0 ==> CalculatePagination(o).page == ToNumber(o.page).value
    ensures ToNumber(o.limit).Some? && ToNumber(o.limit).value != 0 ==> CalculatePagination(o).limit == ToNumber(o.limit).value
    ensures ToNumber(o.page) == Some(-1) ==> CalculatePagination(o).skip == -2 * CalculatePagination(o).limit
  {
    var p := CalculatePagination(o);
    if ToNumber(o.page) == Some(-1) {
      assert p.page == -1;
      assert (p.page - 1) * p.limit == -2 * p.limit;
    }
  }

  /** Query-string text is read as a number: page "3" with limit "10" skips 20 rows. */
  lemma TextOptions(page: int, limit: int)
    requires page != 0 && limit != 0
    ensures var p := CalculatePagination(Options(Some(JStr(IntText(page))), Some(JStr(IntText(limit))), None, None));
      p.page == page && p.limit == limit && p.skip == (page - 1) * limit
  {
    NumberOfText(page);
    NumberOfText(limit);
    assert NumberOr(Some(JStr(IntText(page))), DefaultPage) == page;
    assert NumberOr(Some(JStr(IntText(limit))), DefaultLimit) == limit;
  }

  /** Empty sort text falls back to the default; any other text is kept as given. */
  lemma SortTextPassThrough(o: Options)
    ensures CalculatePagination(o).sortBy == if o.sortBy == Some("") || o.sortBy == None then DefaultSortBy else o.sortBy.value
    ensures CalculatePagination(o).sortOrder == if o.sortOrder == Some("") || o.sortOrder == None then DefaultSortOrder else o.sortOrder.value
  {
  }
}
