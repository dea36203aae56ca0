/** The users list page: a page number, a pending name the operator types, the
    committed name and role the query uses, and a debounce timer for the name
    only. The role takes effect as soon as it is chosen, and changing the page
    does not touch the timer. Time is not modelled, as for the events list. */
module UsersListPage {
  import opened Remote
  import opened Paging

  /** The variables of the list query. */
  datatype UsersQuery = UsersQuery(page: int, size: int, name: string, role: string)

  class UsersList {
    var page: int
    var name: string
    var role: string
    var pendingName: string
    /** The armed timer holds the name its callback will commit. */
    var timer: Option<string>
    var totalCount: int

    /** Pages start at 1, and an armed timer never carries a stale name. */
    predicate Valid()
      reads this
    {
      page >= 1 && (timer.Some? ==> timer.value == pendingName)
    }

    /** Mounting: page 1, every text empty (role "" lists all roles), and the
        first run of the debounce effect arming the timer. */
    constructor ()
      ensures page == 1 && name == "" && role == "" && pendingName == ""
      ensures timer == Some("") && totalCount == 0
      ensures Valid()
    {
      page := 1;
      name := "";
      role := "";
      pendingName := "";
      timer := Some("");
      totalCount := 0;
    }

    /** The query always reads the page, ten rows, the committed name and the role. */
    function QueryVariables(): (q: UsersQuery)
      reads this
      ensures q.page == page && q.size == PageSize && q.name == name && q.role == role
    {
      UsersQuery(page, PageSize, name, role)
    }

    function PageCount(): int
      reads this
    {
      TotalPages(totalCount)
    }

    /** Typing into the search box: a new value re-arms the timer with it; the
        query is untouched until the timer fires. */
    method EditName(v: string)
      requires Valid()
      modifies this
      ensures Valid()
      ensures pendingName == v
      ensures old(pendingName) != v ==> timer == Some(v)
      ensures old(pendingName) == v ==> timer == old(timer)
      ensures QueryVariables() == old(QueryVariables()) && totalCount == old(totalCount)
    {
      if pendingName != v {
        pendingName := v;
        timer := Some(v);
      }
    }

    /** Choosing a role: the query changes at once and the timer is left alone. */
    method SelectRole(r: string)
      requires Valid()
      modifies this
      ensures Valid()
      ensures QueryVariables() == old(QueryVariables()).(role := r)
      ensures pendingName == old(pendingName) && timer == old(timer) && totalCount == old(totalCount)
    {
      role := r;
    }

    /** The quiet period runs out: the committed name takes the pending one. */
    method Fire()
      requires Valid() && timer.Some?
      modifies this
      ensures Valid()
      ensures name == old(pendingName) && timer == None
      ensures pendingName == old(pendingName) && role == old(role) && page == old(page)
      ensures totalCount == old(totalCount)
    {
      name := timer.value;
      timer := None;
    }

    /** The list query answers with its total, absent meaning zero. */
    method LoadResult(count: Option<int>)
      requires Valid()
      modifies this
      ensures Valid()
      ensures totalCount == CountOrZero(count)
      ensures QueryVariables() == old(QueryVariables())
      ensures pendingName == old(pendingName) && timer == old(timer)
    {
      totalCount := CountOrZero(count);
    }

    /** Prev: disabled on page 1; otherwise one page down. The timer is kept. */
    method Prev()
      requires Valid()
      modifies this
      ensures Valid()
      ensures !PrevEnabled(old(page)) ==> page == old(page)
      ensures PrevEnabled(old(page)) ==> page == old(page) - 1
      ensures name == old(name) && role == old(role) && pendingName == old(pendingName)
      ensures timer == old(timer) && totalCount == old(totalCount)
    {
      if PrevEnabled(page) {
        page := page - 1;
      }
    }

    /** Next: disabled on the page equal to the page count; otherwise one page
        up. The timer is kept. */
    method Next()
      requires Valid()
      modifies this
      ensures Valid()
      ensures !NextEnabled(old(page), PageCount()) ==> page == old(page)
      ensures NextEnabled(old(page), PageCount()) ==> page == old(page) + 1
      ensures name == old(name) && role == old(role) && pendingName == old(pendingName)
      ensures timer == old(timer) && totalCount == old(totalCount)
    {
      if NextEnabled(page, PageCount()) {
        page := page + 1;
      }
    }
  }

  /** Typing two names in a row before the quiet period ends commits only the
      second one, while a role chosen in between applies at once. */
  method TwoEditsThenSettle(first: string, second: string, r: string)
    returns (between: UsersQuery, after: UsersQuery)
    ensures between == UsersQuery(1, PageSize, "", r)
    ensures after == UsersQuery(1, PageSize, second, r)
  {
    var list := new UsersList();
    list.EditName(first);
    list.SelectRole(r);
    between := list.QueryVariables();
    list.EditName(second);
    list.Fire();
    after := list.QueryVariables();
  }
}
