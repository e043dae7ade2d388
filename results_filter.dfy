/**
 * The filter panel of the results manager (the `ResultsFilter` component):
 * a search term, the selected sources, a date range and a sort, emitted to
 * the page only when applied or cleared.
 */
module ResultsFilter {
  import opened Lists
  import opened Sorting

  datatype DateRange = DateRange(from: string, to: string)

  /** What the panel emits; `sortBy` is the value of the sort select. */
  datatype FilterCriteria = FilterCriteria(
    searchTerm: string, sourceFilter: seq<string>, dateRange: DateRange, sortBy: string, sortOrder: SortOrder)

  /** No term, no source, no dates, relevance descending. */
  const DefaultCriteria := FilterCriteria("", [], DateRange("", ""), "relevance", Desc)

  class FilterPanel {
    var searchTerm: string
    var sourceFilter: seq<string>
    var dateFrom: string
    var dateTo: string
    var sortBy: string
    var sortOrder: SortOrder

    /** No source is selected twice. */
    predicate Valid()
      reads this
    {
      NoDuplicates(sourceFilter)
    }

    /** The criteria the panel holds, the two dates forming the range. */
    function Criteria(): FilterCriteria
      reads this
    {
      FilterCriteria(searchTerm, sourceFilter, DateRange(dateFrom, dateTo), sortBy, sortOrder)
    }

    /** The panel opens on the default criteria. */
    constructor ()
      ensures Valid() && Criteria() == DefaultCriteria
    {
      searchTerm, sourceFilter, dateFrom, dateTo := "", [], "", "";
      sortBy, sortOrder := "relevance", Desc;
    }

    /** toggleSource: the source leaves the selection if it was in it and joins it at the end otherwise. */
    method ToggleSource(sourceId: string)
      requires Valid()
      modifies this`sourceFilter
      ensures Valid()
      ensures sourceFilter == Toggle(old(sourceFilter), sourceId)
      ensures sourceId in sourceFilter <==> sourceId !in old(sourceFilter)
    {
      ToggleNoDuplicates(sourceFilter, sourceId);
      sourceFilter := Toggle(sourceFilter, sourceId);
    }

    /** handleApplyFilter: emits what the panel holds and changes nothing. */
    method HandleApplyFilter() returns (emitted: FilterCriteria)
      ensures emitted == Criteria()
      ensures emitted.dateRange.from == dateFrom && emitted.dateRange.to == dateTo
    {
      emitted := FilterCriteria(searchTerm, sourceFilter, DateRange(dateFrom, dateTo), sortBy, sortOrder);
    }

    /** handleClearFilters: the panel returns to its opening state and emits the defaults. */
    method HandleClearFilters() returns (emitted: FilterCriteria)
      modifies this
      ensures Valid()
      ensures Criteria() == DefaultCriteria && emitted == DefaultCriteria
    {
      searchTerm, sourceFilter, dateFrom, dateTo := "", [], "", "";
      sortBy, sortOrder := "relevance", Desc;
      emitted := FilterCriteria("", [], DateRange("", ""), "relevance", Desc);
    }
  }
}
