/** The search box and the three filter selects above the task list. The bar
    keeps its own copy of the filters and hands the whole object on at every
    change. */
module SearchBar {
  import opened Common
  import opened Records

  /** The key a select changes. */
  datatype FilterKey = StatusKey | CategoryKey | PriorityKey

  /** `{ ...filters, [filterType]: value }`: the named key takes the selected
      value (a category option's value is the category's identifier string),
      the other two keep theirs. */
  function WithKey(f: Filters, key: FilterKey, value: string): (r: Filters)
    ensures key == StatusKey ==> r.status == value
    ensures key == CategoryKey ==> r.category == StrId(value)
    ensures key == PriorityKey ==> r.priority == value
    ensures key != StatusKey ==> r.status == f.status
    ensures key != CategoryKey ==> r.category == f.category
    ensures key != PriorityKey ==> r.priority == f.priority
  {
    match key
    case StatusKey => f.(status := value)
    case CategoryKey => f.(category := StrId(value))
    case PriorityKey => f.(priority := value)
  }

  /** Selecting the value a key already holds changes nothing. */
  lemma WithKeyIdempotent(f: Filters, key: FilterKey, value: string)
    ensures WithKey(WithKey(f, key, value), key, value) == WithKey(f, key, value)
  {
  }

  /** Changes to different keys commute. */
  lemma WithKeyCommutes(f: Filters, k1: FilterKey, v1: string, k2: FilterKey, v2: string)
    requires k1 != k2
    ensures WithKey(WithKey(f, k1, v1), k2, v2) == WithKey(WithKey(f, k2, v2), k1, v1)
  {
  }

  class Bar {
    var searchTerm: string
    var filters: Filters

    /** An empty search and all three filters on "all". */
    constructor ()
      ensures searchTerm == "" && filters == InitialFilters
    {
      searchTerm := "";
      filters := InitialFilters;
    }

    /** `handleSearchChange`: keeps the typed text and forwards it unchanged. */
    method SearchChange(value: string) returns (forwarded: string)
      modifies this`searchTerm
      ensures searchTerm == value && forwarded == value
    {
      searchTerm := value;
      forwarded := value;
    }

    /** `handleFilterChange`: updates one key of the bar's own filters and
        forwards the whole new object, so the receiver gets the bar's other two
        keys too, whatever it had set itself in between. */
    method FilterChange(key: FilterKey, value: string) returns (forwarded: Filters)
      modifies this`filters
      ensures filters == WithKey(old(filters), key, value)
      ensures forwarded == filters
    {
      filters := WithKey(filters, key, value);
      forwarded := filters;
    }
  }
}
