/**
 * The state behind the results-manager page (the `useResultsManager`
 * hook): the criteria from the filter panel, the list they derive from the
 * processed results, and the processing button's flags.
 *
 * The date parser (`new Date(s).getTime()`) is a parameter; the server call
 * of processResults is represented by its outcome.
 */
module ResultsManagerView {
  import opened Wrappers
  import opened Text
  import opened Lists
  import opened Sorting
  import opened ResultsFilter
  import Entities

  /** What the hook reads of a processed result and of its raw result. */
  datatype ListedResult = ListedResult(
    title: string, snippet: Option<string>, searchEngine: Option<string>, rank: Option<int>, date: Option<string>)

  /** The title, or a non-empty snippet, contains the term ignoring case; an empty term keeps everything. */
  predicate MatchesTerm(term: string, r: ListedResult)
  {
    term == "" ||
    Contains(ToLower(r.title), ToLower(term)) ||
    (Truthy(r.snippet) && Contains(ToLower(r.snippet.value), ToLower(term)))
  }

  /** With sources selected, the raw result's engine must be given and selected. */
  predicate FromSource(sourceFilter: seq<string>, r: ListedResult)
  {
    sourceFilter == [] || (Truthy(r.searchEngine) && r.searchEngine.value in sourceFilter)
  }

  /**
   * A result without a date always passes; a dated one is dropped only when
   * it lies before `from` or after `to`, so both bounds are inclusive.
   */
  predicate InDateRange(range: DateRange, r: ListedResult, time: string -> int)
  {
    !Truthy(r.date) ||
    ((range.from == "" || time(r.date.value) >= time(range.from)) &&
     (range.to == "" || time(r.date.value) <= time(range.to)))
  }

  /** The rank the relevance sort reads, 0 when the raw result has none. */
  function RankOf(r: ListedResult): (rank: int)
  {
    if r.rank.Some? then r.rank.value else 0
  }

  /** The value the sort compares: the lower-cased title, the date's time (0 without a date), or the rank. */
  function KeyOf(sortBy: string, r: ListedResult, time: string -> int): (key: SortKey)
  {
    if sortBy == "title" then StrKey(ToLower(r.title))
    else if sortBy == "date" then IntKey(if Truthy(r.date) then time(r.date.value) else 0)
    else IntKey(RankOf(r))
  }

  /** The search-term filter. */
  function ByTerm(rows: seq<ListedResult>, term: string): (kept: seq<ListedResult>)
  {
    Filter(rows, r => MatchesTerm(term, r))
  }

  /** The source filter. */
  function BySource(rows: seq<ListedResult>, sourceFilter: seq<string>): (kept: seq<ListedResult>)
  {
    Filter(rows, r => FromSource(sourceFilter, r))
  }

  /** The date-range filter. */
  function ByDate(rows: seq<ListedResult>, range: DateRange, time: string -> int): (kept: seq<ListedResult>)
  {
    Filter(rows, r => InDateRange(range, r, time))
  }

  /** The stable sort by the chosen field, descending unless the order is `asc`. */
  function SortedOn(rows: seq<ListedResult>, sortBy: string, order: SortOrder, time: string -> int): (sorted: seq<ListedResult>)
  {
    SortBy(rows, r => KeyOf(sortBy, r, time), order == Desc)
  }

  /** The three filters one after the other. */
  function Filtered(rows: seq<ListedResult>, f: FilterCriteria, time: string -> int): (kept: seq<ListedResult>)
  {
    ByDate(BySource(ByTerm(rows, f.searchTerm), f.sourceFilter), f.dateRange, time)
  }

  /**
   * The list the effect derives: the results that pass all three filters,
   * stably sorted by the chosen field and direction unless no field is
   * chosen.
   */
  function Listed(rows: seq<ListedResult>, f: FilterCriteria, time: string -> int): (listed: seq<ListedResult>)
    ensures multiset(listed) == multiset(Filtered(rows, f, time))
    ensures f.sortBy != "" ==> SortedBy(listed, r => KeyOf(f.sortBy, r, time), f.sortOrder == Desc)
    ensures f.sortBy == "" ==> listed == Filtered(rows, f, time)
  {
    var kept := Filtered(rows, f, time);
    if f.sortBy == "" then kept else SortedOn(kept, f.sortBy, f.sortOrder, time)
  }

  /** A filter whose criterion is empty keeps the whole list, which is why the effect may skip it. */
  lemma EmptyCriteriaKeepAll(rows: seq<ListedResult>, time: string -> int)
    ensures ByTerm(rows, "") == rows
    ensures BySource(rows, []) == rows
    ensures ByDate(rows, DateRange("", ""), time) == rows
  {
    FilterKeepsAll(rows, r => MatchesTerm("", r));
    FilterKeepsAll(rows, r => FromSource([], r));
    FilterKeepsAll(rows, r => InDateRange(DateRange("", ""), r, time));
  }

  /** A result is listed exactly when it passes the term, source and date filters. */
  lemma ListedMembers(rows: seq<ListedResult>, f: FilterCriteria, time: string -> int)
    ensures forall r :: r in Listed(rows, f, time) <==>
      r in rows && MatchesTerm(f.searchTerm, r) && FromSource(f.sourceFilter, r) && InDateRange(f.dateRange, r, time)
  {
    SameMembers(Listed(rows, f, time), Filtered(rows, f, time));
  }

  /** The sort on anything but title or date compares the ranks. */
  lemma RankKey(sortBy: string, r: ListedResult, time: string -> int)
    requires sortBy != "title" && sortBy != "date"
    ensures KeyOf(sortBy, r, time) == IntKey(RankOf(r))
  {
  }

  /** A list sorted descending by integer keys has them in non-increasing order. */
  lemma SortedDescending<T>(s: seq<T>, key: T -> SortKey, n: T -> int)
    requires SortedBy(s, key, true)
    requires forall x :: key(x) == IntKey(n(x))
    ensures forall i, j :: 0 <= i < j < |s| ==> n(s[i]) >= n(s[j])
  {
    forall i, j | 0 <= i < j < |s|
      ensures n(s[i]) >= n(s[j])
    {
      assert InOrder(key(s[i]), key(s[j]), true);
    }
  }

  /** With the default criteria, the largest rank comes first. */
  lemma DefaultListsLargestRankFirst(rows: seq<ListedResult>, time: string -> int)
    ensures var listed := Listed(rows, DefaultCriteria, time);
      forall i, j :: 0 <= i < j < |listed| ==> RankOf(listed[i]) >= RankOf(listed[j])
  {
    var key := r => KeyOf(DefaultCriteria.sortBy, r, time);
    forall r
      ensures key(r) == IntKey(RankOf(r))
    {
      RankKey(DefaultCriteria.sortBy, r, time);
    }
    SortedDescending(Listed(rows, DefaultCriteria, time), key, RankOf);
  }

  /** JavaScript's `<` on the compared values. */
  predicate Below(a: SortKey, b: SortKey)
  {
    KeyLe(a, b) && !KeyLe(b, a)
  }

  /** The title and date comparator: -1, 0 or 1, reversed for descending. */
  function CompareValues(a: SortKey, b: SortKey, order: SortOrder): (c: int)
  {
    if order == Asc then (if Below(a, b) then -1 else if Below(b, a) then 1 else 0)
    else (if Below(b, a) then -1 else if Below(a, b) then 1 else 0)
  }

  /** The relevance comparator: the difference of the ranks, reversed for descending. */
  function CompareRanks(a: int, b: int, order: SortOrder): (c: int)
  {
    if order == Asc then a - b else b - a
  }

  /**
   * The comparators agree with the sort order the list is stated in: one
   * element may precede the other exactly when the comparator does not
   * return a positive value, and swapping the arguments negates it.
   */
  lemma ComparatorsMatchOrder(a: SortKey, b: SortKey, x: int, y: int, order: SortOrder)
    ensures CompareValues(a, b, order) in {-1, 0, 1}
    ensures CompareValues(a, b, order) <= 0 <==> InOrder(a, b, order == Desc)
    ensures CompareValues(a, b, order) == -CompareValues(b, a, order)
    ensures CompareRanks(x, y, order) <= 0 <==> InOrder(IntKey(x), IntKey(y), order == Desc)
    ensures CompareRanks(x, y, order) == -CompareRanks(y, x, order)
  {
    KeyLeTotal(a, b);
  }

  class ManagerView {
    var filters: FilterCriteria
    var filteredResults: seq<ListedResult>
    var isProcessing: bool
    var processingError: Option<string>
    var processingSuccess: bool

    /** Default criteria, nothing listed, nothing processing. */
    constructor ()
      ensures filters == DefaultCriteria && filteredResults == []
      ensures !isProcessing && processingError == None && !processingSuccess
    {
      filters := DefaultCriteria;
      filteredResults := [];
      isProcessing, processingError, processingSuccess := false, None, false;
    }

    /** setFilters, as the panel's `onFilter`. */
    method SetFilters(f: FilterCriteria)
      modifies this`filters
      ensures filters == f
    {
      filters := f;
    }

    /**
     * The filtering effect: while the processed results have not arrived the
     * list stays as it was; afterwards a copy of them passes through each
     * filter whose criterion is set and is sorted when a field is chosen.
     */
    method ApplyFilters(processedResults: Option<seq<ListedResult>>, time: string -> int)
      modifies this`filteredResults
      ensures processedResults.None? ==> filteredResults == old(filteredResults)
      ensures processedResults.Some? ==> filteredResults == Listed(processedResults.value, filters, time)
    {
      if processedResults.None? {
        return;
      }
      var f := filters;
      var results := processedResults.value;
      EmptyCriteriaKeepAll(results, time);
      if f.searchTerm != "" {
        results := ByTerm(results, f.searchTerm);
      }
      EmptyCriteriaKeepAll(results, time);
      if |f.sourceFilter| > 0 {
        results := BySource(results, f.sourceFilter);
      }
      EmptyCriteriaKeepAll(results, time);
      if f.dateRange.from != "" || f.dateRange.to != "" {
        results := ByDate(results, f.dateRange, time);
      }
      assert results == Filtered(processedResults.value, f, time);
      if f.sortBy != "" {
        results := SortedOn(results, f.sortBy, f.sortOrder, time);
      }
      filteredResults := results;
    }

    /**
     * processResults: with no raw results it only reports "No raw results to
     * process" and calls nothing. Otherwise it marks processing, clears the
     * flags, calls the server (`failure` is the message it throws, if any),
     * and always ends not processing, with success or the error message.
     */
    method ProcessResults(rawResults: Option<seq<Entities.RawSearchResult>>, failure: Option<string>)
      returns (called: bool, busyDuringCall: bool)
      modifies this`isProcessing, this`processingError, this`processingSuccess
      ensures called <==> rawResults.Some? && |rawResults.value| > 0
      ensures !called ==>
        && processingError == Some("No raw results to process")
        && isProcessing == old(isProcessing) && processingSuccess == old(processingSuccess)
      ensures called ==> busyDuringCall && !isProcessing
      ensures called && failure.None? ==> processingSuccess && processingError.None?
      ensures called && failure.Some? ==>
        && !processingSuccess
        && processingError == Some(if failure.value != "" then failure.value else "An error occurred during processing")
    {
      if rawResults.None? || |rawResults.value| == 0 {
        processingError := Some("No raw results to process");
        return false, false;
      }
      isProcessing := true;
      processingError := None;
      processingSuccess := false;
      called, busyDuringCall := true, isProcessing;
      if failure.None? {
        processingSuccess := true;
      } else {
        processingError := Some(if failure.value != "" then failure.value else "An error occurred during processing");
      }
      isProcessing := false;
    }
  }
}
