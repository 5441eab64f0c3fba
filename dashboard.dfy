/**
 The state of the `AdminDashboard` component and the handlers that change
 it: the store replaced by a fetch, the search term, the sort
 configuration, the current page, and the filtered and sorted view the
 `applyFiltersAndSearch` effect derives from them.
 */
module AdminDashboard {
  import opened Entries
  import opened Filtering
  import opened SearchFilter
  import opened Sorting
  import opened Pagination

  /** What one call to the table's fetch can bring back. */
  datatype FetchResult =
    | Failed
    | Fetched(data: Option<seq<Entry>>, count: Option<nat>)

  class Dashboard {
    var waitlistData: seq<Entry>
    var filteredData: seq<Entry>
    var isLoading: bool
    var totalEntries: nat
    var searchTerm: string
    var sortConfig: Option<SortConfig>
    var currentPage: int

    /**
     The view is the search result, in store order without a sort
     configuration and rearranged into the configured order with one; the
     page number never goes below 0.
     */
    ghost predicate Valid()
      reads this
    {
      && multiset(filteredData) == multiset(Search(waitlistData, searchTerm))
      && (sortConfig.None? ==> filteredData == Search(waitlistData, searchTerm))
      && (sortConfig.Some? ==> SortedFor(filteredData, sortConfig.value))
      && currentPage >= 0
    }

    /** The initial state of the component: nothing loaded yet, on page 1. */
    constructor()
      ensures Valid()
      ensures waitlistData == [] && filteredData == [] && isLoading && totalEntries == 0
      ensures searchTerm == "" && sortConfig.None? && currentPage == 1
    {
      waitlistData := [];
      filteredData := [];
      isLoading := true;
      totalEntries := 0;
      searchTerm := "";
      sortConfig := None;
      currentPage := 1;
    }

    /** `applyFiltersAndSearch`: filter the store by the term, then sort the result in place if a column is chosen. */
    method ApplyFiltersAndSearch()
      requires currentPage >= 0
      modifies this
      ensures Valid()
      ensures waitlistData == old(waitlistData) && searchTerm == old(searchTerm) && sortConfig == old(sortConfig)
      ensures currentPage == old(currentPage) && isLoading == old(isLoading) && totalEntries == old(totalEntries)
    {
      var filtered := Search(waitlistData, searchTerm);
      if sortConfig.Some? {
        var a := new Entry[|filtered|](i requires 0 <= i < |filtered| => filtered[i]);
        assert a[..] == filtered;
        SortEntries(a, sortConfig.value);
        filteredData := a[..];
      } else {
        filteredData := filtered;
      }
    }

    /** Typing in the search box; the page number is left as it was. */
    method SetSearchTerm(term: string)
      requires Valid()
      modifies this
      ensures Valid()
      ensures searchTerm == term
      ensures waitlistData == old(waitlistData) && sortConfig == old(sortConfig) && currentPage == old(currentPage)
      ensures isLoading == old(isLoading) && totalEntries == old(totalEntries)
    {
      searchTerm := term;
      ApplyFiltersAndSearch();
    }

    /** `handleSort(key)`, followed by the effect that re-sorts the view. */
    method HandleSort(key: Field)
      requires Valid()
      modifies this
      ensures Valid()
      ensures sortConfig == Some(ToggleSort(old(sortConfig), key))
      ensures waitlistData == old(waitlistData) && searchTerm == old(searchTerm) && currentPage == old(currentPage)
      ensures isLoading == old(isLoading) && totalEntries == old(totalEntries)
    {
      sortConfig := Some(ToggleSort(sortConfig, key));
      ApplyFiltersAndSearch();
    }

    /**
     `fetchWaitlistData` once the request has answered: on an error the
     store is left as it was; otherwise it becomes `data || []` and the
     total `count || 0`. Loading ends either way.
     */
    method ReplaceStore(result: FetchResult)
      requires Valid()
      modifies this
      ensures Valid()
      ensures !isLoading
      ensures result.Failed? ==> waitlistData == old(waitlistData) && totalEntries == old(totalEntries)
      ensures result.Failed? ==> filteredData == old(filteredData)
      ensures result.Fetched? ==> waitlistData == (if result.data.Some? then result.data.value else [])
      ensures result.Fetched? ==> totalEntries == (if result.count.Some? then result.count.value else 0)
      ensures searchTerm == old(searchTerm) && sortConfig == old(sortConfig) && currentPage == old(currentPage)
    {
      match result {
        case Failed =>
          isLoading := false;
        case Fetched(data, count) =>
          waitlistData := if data.Some? then data.value else [];
          totalEntries := if count.Some? then count.value else 0;
          isLoading := false;
          ApplyFiltersAndSearch();
      }
    }

    /** `totalPages`: enough pages of 50 for the view, none for an empty view. */
    function TotalPageCount(): (r: nat)
      reads this
      ensures r * ItemsPerPage >= |filteredData|
      ensures r == 0 || (r - 1) * ItemsPerPage < |filteredData|
      ensures r == 0 <==> filteredData == []
    {
      TotalPages(|filteredData|)
    }

    /** `getPaginatedData()`: the rows the table shows. */
    function PaginatedData(): (r: seq<Entry>)
      reads this
      requires Valid()
      ensures |r| <= ItemsPerPage
      ensures currentPage >= 1 ==> r == filteredData[Min((currentPage - 1) * ItemsPerPage, |filteredData|)..Min(currentPage * ItemsPerPage, |filteredData|)]
      ensures forall e :: e in r ==> e in waitlistData && Matches(e, searchTerm)
    {
      var page := PageOf(filteredData, currentPage);
      assert forall e :: e in page ==> e in multiset(filteredData);
      page
    }

    /** The Previous button. */
    method PreviousPage()
      requires Valid()
      modifies this
      ensures Valid()
      ensures currentPage == Previous(old(currentPage)) >= 1
      ensures filteredData == old(filteredData) && waitlistData == old(waitlistData)
      ensures searchTerm == old(searchTerm) && sortConfig == old(sortConfig)
      ensures isLoading == old(isLoading) && totalEntries == old(totalEntries)
    {
      currentPage := Max(currentPage - 1, 1);
    }

    /** The Next button; on an empty view it moves to page 0. */
    method NextPage()
      requires Valid()
      modifies this
      ensures Valid()
      ensures currentPage == Next(old(currentPage), TotalPages(|filteredData|))
      ensures currentPage <= TotalPages(|filteredData|)
      ensures filteredData == [] ==> currentPage == 0
      ensures filteredData == old(filteredData) && waitlistData == old(waitlistData)
      ensures searchTerm == old(searchTerm) && sortConfig == old(sortConfig)
      ensures isLoading == old(isLoading) && totalEntries == old(totalEntries)
    {
      currentPage := Min(currentPage + 1, TotalPages(|filteredData|));
    }
  }
}
