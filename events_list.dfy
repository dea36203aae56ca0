/** The events list page: a page number, five filter inputs the operator types
    into, the five committed filters the query uses, and a debounce timer that
    copies the inputs into the filters after a quiet period. Time is not
    modelled: the timer is either disarmed or armed with the inputs its callback
    captured, any change of an input or of the page re-arms it, and `Fire`
    is the quiet period running out. */
module EventsListPage {
  import opened Remote
  import opened Paging

  datatype EventFilters = EventFilters(name: string, contact: string, venue: string, dateFrom: string, dateTo: string)

  const NoFilters := EventFilters("", "", "", "", "")

  datatype FilterField = Name | Contact | Venue | DateFrom | DateTo

  function Get(f: EventFilters, k: FilterField): string {
    match k
    case Name => f.name
    case Contact => f.contact
    case Venue => f.venue
    case DateFrom => f.dateFrom
    case DateTo => f.dateTo
  }

  /** One input set to `v`, the four others kept. */
  function With(f: EventFilters, k: FilterField, v: string): (r: EventFilters)
    ensures Get(r, k) == v
    ensures forall k' :: k' != k ==> Get(r, k') == Get(f, k')
  {
    match k
    case Name => f.(name := v)
    case Contact => f.(contact := v)
    case Venue => f.(venue := v)
    case DateFrom => f.(dateFrom := v)
    case DateTo => f.(dateTo := v)
  }

  /** Filters agreeing on every field are the same filters. */
  lemma FiltersExtensional(f: EventFilters, g: EventFilters)
    requires forall k :: Get(f, k) == Get(g, k)
    ensures f == g
  {
    assert Get(f, Name) == Get(g, Name) && Get(f, Contact) == Get(g, Contact);
    assert Get(f, Venue) == Get(g, Venue) && Get(f, DateFrom) == Get(g, DateFrom);
    assert Get(f, DateTo) == Get(g, DateTo);
  }

  /** Setting an input to the value it already holds changes nothing. */
  lemma WithSameValue(f: EventFilters, k: FilterField)
    ensures With(f, k, Get(f, k)) == f
  {
    FiltersExtensional(With(f, k, Get(f, k)), f);
  }

  /** The variables of the list query. */
  datatype EventsQuery = EventsQuery(page: int, size: int, filters: EventFilters)

  class EventsList {
    var page: int
    var inputs: EventFilters
    var filters: EventFilters
    /** The armed timer holds the inputs its callback will commit. */
    var timer: Option<EventFilters>
    var totalCount: int

    /** Pages start at 1, and an armed timer never carries stale inputs. */
    predicate Valid()
      reads this
    {
      page >= 1 && (timer.Some? ==> timer.value == inputs)
    }

    /** Mounting: page 1, empty inputs and filters, and the first run of the
        debounce effect arming the timer. */
    constructor ()
      ensures page == 1 && inputs == NoFilters && filters == NoFilters
      ensures timer == Some(NoFilters) && totalCount == 0
      ensures Valid()
    {
      page := 1;
      inputs := NoFilters;
      filters := NoFilters;
      timer := Some(NoFilters);
      totalCount := 0;
    }

    /** The query always reads the page, ten rows and the committed filters. */
    function QueryVariables(): (q: EventsQuery)
      reads this
      ensures q.page == page && q.size == PageSize && q.filters == filters
    {
      EventsQuery(page, PageSize, filters)
    }

    function PageCount(): int
      reads this
    {
      TotalPages(totalCount)
    }

    /** Typing into one input: a new value re-arms the timer with the new
        inputs; the same value changes nothing. The page and the query are
        untouched. */
    method Edit(k: FilterField, v: string)
      requires Valid()
      modifies this
      ensures Valid()
      ensures inputs == With(old(inputs), k, v)
      ensures Get(old(inputs), k) != v ==> timer == Some(inputs)
      ensures Get(old(inputs), k) == v ==> timer == old(timer)
      ensures page == old(page) && filters == old(filters) && totalCount == old(totalCount)
      ensures QueryVariables() == old(QueryVariables())
    {
      if Get(inputs, k) != v {
        inputs := With(inputs, k, v);
        timer := Some(inputs);
      } else {
        WithSameValue(inputs, k);
      }
    }

    /** The quiet period runs out: all five filters take the current inputs at
        once, and the timer is disarmed. */
    method Fire()
      requires Valid() && timer.Some?
      modifies this
      ensures Valid()
      ensures filters == old(inputs) && timer == None
      ensures inputs == old(inputs) && page == old(page) && totalCount == old(totalCount)
    {
      filters := timer.value;
      timer := None;
    }

    /** The list query answers with its total, absent meaning zero. */
    method LoadResult(count: Option<int>)
      requires Valid()
      modifies this
      ensures Valid()
      ensures totalCount == CountOrZero(count)
      ensures page == old(page) && inputs == old(inputs) && filters == old(filters) && timer == old(timer)
    {
      totalCount := CountOrZero(count);
    }

    /** Prev: on page 1 the button is disabled and nothing happens; otherwise
        the page goes down by one and the timer is re-armed. */
    method Prev()
      requires Valid()
      modifies this
      ensures Valid()
      ensures !PrevEnabled(old(page)) ==> page == old(page) && timer == old(timer)
      ensures PrevEnabled(old(page)) ==> page == old(page) - 1 && timer == Some(inputs)
      ensures inputs == old(inputs) && filters == old(filters) && totalCount == old(totalCount)
    {
      if PrevEnabled(page) {
        page := page - 1;
        timer := Some(inputs);
      }
    }

    /** Next: on the page equal to the page count the button is disabled;
        otherwise the page goes up by one and the timer is re-armed. */
    method Next()
      requires Valid()
      modifies this
      ensures Valid()
      ensures !NextEnabled(old(page), PageCount()) ==> page == old(page) && timer == old(timer)
      ensures NextEnabled(old(page), PageCount()) ==> page == old(page) + 1 && timer == Some(inputs)
      ensures inputs == old(inputs) && filters == old(filters) && totalCount == old(totalCount)
    {
      if NextEnabled(page, PageCount()) {
        page := page + 1;
        timer := Some(inputs);
      }
    }
  }

  /** An edit followed by the quiet period: the query then carries the edited
      inputs, on the same page as before. */
  method EditThenSettle(k: FilterField, v: string) returns (before: EventsQuery, after: EventsQuery)
    ensures after.page == before.page == 1
    ensures Get(after.filters, k) == v
    ensures forall k' :: k' != k ==> Get(after.filters, k') == ""
  {
    var list := new EventsList();
    before := list.QueryVariables();
    list.Edit(k, v);
    list.Fire();
    after := list.QueryVariables();
  }
}
