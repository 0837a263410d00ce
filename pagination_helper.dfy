/** `utils/paginationHelper.js`: turning the raw `page` and `limit` query values into a page window. */
module PaginationHelper {
  import opened Wrappers
  import opened JsNumbers

  const DefaultLimit := 10
  const MaxLimit := 100

  datatype Pagination = Pagination(page: int, limit: int, skip: int)

  /** `parseInt(x, 10)` of a query value; an absent value reads as NaN. */
  function ParseQueryInt(raw: Option<string>): Option<int> {
    match raw
    case None => None
    case Some(s) => ParseInt(s)
  }

  /** `page` as normalised: a parsed value of at least 1, else 1. */
  function NormalPage(raw: Option<string>): (page: int)
    ensures page >= 1
  {
    var p := ParseQueryInt(raw);
    if p.None? || p.value < 1 then 1 else p.value
  }

  /** `limit` as normalised: a parsed value of at least 1, else `defaultLimit`; then capped at `maxLimit`. */
  function NormalLimit(raw: Option<string>, defaultLimit: int, maxLimit: int): (limit: int)
    ensures limit <= maxLimit
    ensures defaultLimit >= 1 && maxLimit >= 1 ==> 1 <= limit
  {
    var l := ParseQueryInt(raw);
    var limit := if l.None? || l.value < 1 then defaultLimit else l.value;
    if limit > maxLimit then maxLimit else limit
  }

  /** `getPagination(reqQuery, defaultLimit = 10, maxLimit = 100)`. */
  function GetPagination(rawPage: Option<string>, rawLimit: Option<string>,
                         defaultLimit: int := DefaultLimit, maxLimit: int := MaxLimit): (r: Pagination)
    ensures r.page >= 1
    ensures r.limit <= maxLimit
    ensures defaultLimit >= 1 && maxLimit >= 1 ==> 1 <= r.limit <= maxLimit
  {
    var page := NormalPage(rawPage);
    var limit := NormalLimit(rawLimit, defaultLimit, maxLimit);
    Pagination(page, limit, (page - 1) * limit)
  }

  /** A page value that is missing, not a number or below 1 becomes 1; any other is kept. */
  lemma PageDefaulting(rawPage: Option<string>, rawLimit: Option<string>, defaultLimit: int, maxLimit: int)
    ensures var p := ParseQueryInt(rawPage);
            GetPagination(rawPage, rawLimit, defaultLimit, maxLimit).page
              == if p.Some? && p.value >= 1 then p.value else 1
  {
  }

  /**
   * A limit value that is missing, not a number or below 1 becomes `defaultLimit`;
   * one above `maxLimit` becomes `maxLimit`; one in `[1, maxLimit]` is kept.
   */
  lemma LimitDefaulting(rawPage: Option<string>, rawLimit: Option<string>, defaultLimit: int, maxLimit: int)
    ensures var l := ParseQueryInt(rawLimit);
            var r := GetPagination(rawPage, rawLimit, defaultLimit, maxLimit);
            && ((l.None? || l.value < 1) && defaultLimit <= maxLimit ==> r.limit == defaultLimit)
            && (l.Some? && l.value >= 1 && l.value > maxLimit ==> r.limit == maxLimit)
            && (l.Some? && 1 <= l.value <= maxLimit ==> r.limit == l.value)
  {
  }

  /**
   * The offset is `(page - 1) * limit`, a whole number of full pages, so it is
   * never negative when the limit is not; it is 0 exactly on the first page
   * when the limit is positive.
   */
  lemma {:induction false} SkipIsWholePages(rawPage: Option<string>, rawLimit: Option<string>, defaultLimit: int, maxLimit: int)
    ensures var r := GetPagination(rawPage, rawLimit, defaultLimit, maxLimit);
            && (exists pages: nat {:trigger pages * r.limit} :: pages == r.page - 1 && r.skip == pages * r.limit)
            && (r.limit >= 0 ==> r.skip >= 0)
            && (r.limit > 0 ==> (r.skip == 0 <==> r.page == 1))
  {
    var r := GetPagination(rawPage, rawLimit, defaultLimit, maxLimit);
    var pages: nat := r.page - 1;
    assert r.skip == pages * r.limit;
    if r.limit >= 0 {
      WholePages(pages, r.limit);
    }
  }

  lemma {:induction false} WholePages(pages: nat, limit: nat)
    ensures pages * limit >= 0
    ensures limit > 0 ==> (pages * limit == 0 <==> pages == 0)
  {
    if pages > 0 {
      WholePages(pages - 1, limit);
      assert pages * limit == (pages - 1) * limit + limit;
    }
  }

  /** A query with neither value gives the first page of ten. */
  lemma NoQueryValues()
    ensures GetPagination(None, None) == Pagination(1, 10, 0)
  {
  }
}
