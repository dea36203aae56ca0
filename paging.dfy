/** The page arithmetic shared by the events and users lists: ten rows per
    page, the page count as the ceiling of the total over ten, and the guards
    of the Prev and Next buttons. */
module Paging {
  import opened Remote

  const PageSize := 10

  /** `totalCount || 0`: an absent total counts as zero rows. */
  function CountOrZero(count: Option<int>): (c: int)
    ensures count.Some? ==> c == count.value
    ensures count.None? ==> c == 0
  {
    if count.Some? then count.value else 0
  }

  /** `Math.ceil(count / 10)`: the least number of pages whose rows hold
      `count`, written with Euclidean division of the negated total, which is
      exact for every integer. */
  function TotalPages(count: int): (pages: int)
    ensures PageSize * (pages - 1) < count <= PageSize * pages
  {
    -((-count) / PageSize)
  }

  /** The ceiling is the least page count that holds the total, and no total
      of rows yields a negative count; only an empty list has zero pages. */
  lemma TotalPagesLeast(count: int, p: int)
    requires count <= PageSize * p
    ensures TotalPages(count) <= p
    ensures count >= 0 ==> TotalPages(count) >= 0 && (TotalPages(count) == 0 <==> count == 0)
  {
  }

  /** Prev is disabled exactly on page 1. */
  predicate PrevEnabled(page: int)
    ensures page >= 1 ==> (PrevEnabled(page) <==> page - 1 >= 1)
  {
    page != 1
  }

  /** Next is disabled exactly on the page equal to the page count, so it stays
      enabled when there are no pages at all, or past the last one. */
  predicate NextEnabled(page: int, totalPages: int)
    ensures 1 <= page <= totalPages ==> (NextEnabled(page, totalPages) <==> page + 1 <= totalPages)
    ensures totalPages < 1 && page >= 1 ==> NextEnabled(page, totalPages)
  {
    page != totalPages
  }

  /** With no rows, Next is enabled on every page from 1 on. */
  lemma NextEnabledWithoutRows(page: int)
    requires page >= 1
    ensures TotalPages(CountOrZero(None)) == 0
    ensures NextEnabled(page, TotalPages(0))
  {
  }
}
