/**
 * The filter and sort state of the processed-results list (the
 * `useResultsFiltering` hook): a case-insensitive search term, optional
 * domain and file-type lists, and a sort field with its direction; the
 * filtered and sorted list it derives; and the domain and file-type choices
 * it offers.
 *
 * The platform URL parser and date parser are parameters. The metadata
 * fields the hook reads are optional here, as they are in the stored JSON.
 */
module ResultsFiltering {
  import opened Wrappers
  import opened Text
  import opened Lists
  import opened Sorting
  import opened UrlNormalizer

  datatype SortField = Relevance | Title | Date

  datatype FilterState = FilterState(
    searchTerm: string, sortBy: SortField, sortOrder: SortOrder, domains: seq<string>, fileTypes: seq<string>)

  /** What the hook reads of a processed result. */
  datatype Row = Row(title: string, snippet: Option<string>, url: string,
                     relevanceScore: Option<int>, processedAt: Option<string>)

  /** Empty term, relevance first, no domain or file-type restriction. */
  const InitialFilters := FilterState("", Relevance, Desc, [], [])

  /** The title or the snippet contains the term, ignoring case; an empty term matches everything. */
  predicate TermMatches(term: string, row: Row)
  {
    term == "" ||
    Contains(ToLower(row.title), ToLower(term)) ||
    (row.snippet.Some? && Contains(ToLower(row.snippet.value), ToLower(term)))
  }

  /** `url.split('.').pop()`: the text after the last `.`, kept in its case. */
  function FileTypeOf(url: string): (t: string)
    ensures '.' !in t
    ensures '.' !in url ==> t == url
  {
    AfterLast(url, '.')
  }

  /**
   * The filter callback: `Some(keep)`, or `None` when it throws because
   * the domain filter is active and the URL does not parse. A result the
   * term rejects is rejected before its URL is parsed.
   */
  function Keep(f: FilterState, row: Row, parse: UrlParser): (k: Option<bool>)
    ensures k.None? <==> TermMatches(f.searchTerm, row) && f.domains != [] && parse(row.url).None?
    ensures k == Some(true) <==>
      && TermMatches(f.searchTerm, row)
      && (f.domains != [] ==> parse(row.url).Some? && parse(row.url).value.hostname in f.domains)
      && (f.fileTypes != [] ==> FileTypeOf(row.url) in f.fileTypes)
  {
    if !TermMatches(f.searchTerm, row) then Some(false)
    else if f.domains != [] && parse(row.url).None? then None
    else if f.domains != [] && parse(row.url).value.hostname !in f.domains then Some(false)
    else if f.fileTypes != [] && FileTypeOf(row.url) !in f.fileTypes then Some(false)
    else Some(true)
  }

  predicate Kept(f: FilterState, row: Row, parse: UrlParser)
  {
    Keep(f, row, parse) == Some(true)
  }

  /** The key the comparator reads: the relevance score, the title, or the processing time (0 when absent). */
  function KeyOf(field: SortField, row: Row, time: string -> int): (key: SortKey)
  {
    match field
    case Relevance => IntKey(if row.relevanceScore.Some? then row.relevanceScore.value else 0)
    case Title => StrKey(row.title)
    case Date => IntKey(if row.processedAt.Some? && row.processedAt.value != "" then time(row.processedAt.value) else 0)
  }

  /**
   * filteredResults: none while the results are loading; `None` when the
   * filter throws; otherwise the kept results, stably sorted by the chosen
   * field in the chosen direction.
   */
  function FilteredResults(results: Option<seq<Row>>, f: FilterState, parse: UrlParser, time: string -> int)
    : (r: Option<seq<Row>>)
    ensures results.None? ==> r == Some([])
    ensures results.Some? ==>
      (r.None? <==> exists i :: 0 <= i < |results.value| && Keep(f, results.value[i], parse).None?)
    ensures results.Some? && r.Some? ==>
      && SortedBy(r.value, row => KeyOf(f.sortBy, row, time), f.sortOrder == Desc)
      && multiset(r.value) == multiset(Filter(results.value, row => Kept(f, row, parse)))
  {
    match results
    case None => Some([])
    case Some(rows) =>
      if exists i :: 0 <= i < |rows| && Keep(f, rows[i], parse).None? then None
      else Some(SortBy(Filter(rows, row => Kept(f, row, parse)), row => KeyOf(f.sortBy, row, time), f.sortOrder == Desc))
  }

  /** A result is listed exactly when the filters keep it. */
  lemma FilteredMembers(rows: seq<Row>, f: FilterState, parse: UrlParser, time: string -> int)
    requires FilteredResults(Some(rows), f, parse, time).Some?
    ensures forall row :: row in FilteredResults(Some(rows), f, parse, time).value <==> row in rows && Kept(f, row, parse)
  {
    SameMembers(FilteredResults(Some(rows), f, parse, time).value, Filter(rows, row => Kept(f, row, parse)));
  }

  /**
   * With the initial filters nothing is dropped, and results that carry no
   * relevance score (the pipeline writes none) keep their order.
   */
  lemma InitialViewKeepsOrder(rows: seq<Row>, parse: UrlParser, time: string -> int)
    requires forall i :: 0 <= i < |rows| ==> rows[i].relevanceScore.None?
    ensures FilteredResults(Some(rows), InitialFilters, parse, time) == Some(rows)
  {
    FilterKeepsAll(rows, row => Kept(InitialFilters, row, parse));
    SortByEqualKeys(rows, row => KeyOf(Relevance, row, time), true);
  }

  /** The next sort: the same field flips the direction, another field starts descending. */
  function SortChanged(f: FilterState, field: SortField): (g: FilterState)
    ensures g.sortBy == field
    ensures f.sortBy == field ==> g.sortOrder != f.sortOrder
    ensures f.sortBy != field ==> g.sortOrder == Desc
    ensures g.searchTerm == f.searchTerm && g.domains == f.domains && g.fileTypes == f.fileTypes
  {
    if f.sortBy == field then f.(sortOrder := if f.sortOrder == Asc then Desc else Asc)
    else f.(sortBy := field, sortOrder := Desc)
  }

  /**
   * Choosing the current field twice restores the state; choosing a new
   * field twice sorts by it ascending.
   */
  lemma SortChangedTwice(f: FilterState, field: SortField)
    ensures f.sortBy == field ==> SortChanged(SortChanged(f, field), field) == f
    ensures f.sortBy != field ==> SortChanged(SortChanged(f, field), field) == f.(sortBy := field, sortOrder := Asc)
  {
  }

  /** The host name of a URL, or the empty string when it does not parse. */
  function DomainOrEmpty(url: string, parse: UrlParser): (domain: string)
  {
    if parse(url).Some? then parse(url).value.hostname else ""
  }

  /** `rows.map(f).filter(Boolean)` for a string-valued `f`: the non-empty images, in order. */
  function NonEmptyImages<T>(rows: seq<T>, f: T -> string): (r: seq<string>)
    ensures forall x :: x in r <==> x != "" && exists i :: 0 <= i < |rows| && f(rows[i]) == x
  {
    var all := seq(|rows|, i requires 0 <= i < |rows| => f(rows[i]));
    forall x
      ensures x in all <==> exists i :: 0 <= i < |rows| && f(rows[i]) == x
    {
      if x in all {
        var i :| 0 <= i < |all| && all[i] == x;
        assert f(rows[i]) == x;
      }
      if exists i :: 0 <= i < |rows| && f(rows[i]) == x {
        var i :| 0 <= i < |rows| && f(rows[i]) == x;
        assert all[i] == x;
      }
    }
    Filter(all, x => x != "")
  }

  /** The non-empty host names of the results, in result order, repeats included. */
  function Domains(rows: seq<Row>, parse: UrlParser): (ds: seq<string>)
    ensures forall d :: d in ds <==> d != "" && exists i :: 0 <= i < |rows| && DomainOrEmpty(rows[i].url, parse) == d
  {
    NonEmptyImages(rows, (row: Row) => DomainOrEmpty(row.url, parse))
  }

  /** The non-empty file types of the results, in result order, repeats included. */
  function FileTypes(rows: seq<Row>): (ts: seq<string>)
    ensures forall t :: t in ts <==> t != "" && exists i :: 0 <= i < |rows| && FileTypeOf(rows[i].url) == t
  {
    NonEmptyImages(rows, (row: Row) => FileTypeOf(row.url))
  }

  /**
   * uniqueDomains: each host name of a result once, none empty (a URL that
   * does not parse contributes none), in the order of first occurrence.
   */
  function UniqueDomains(results: Option<seq<Row>>, parse: UrlParser): (ds: seq<string>)
    ensures NoDuplicates(ds) && "" !in ds
    ensures results.None? ==> ds == []
    ensures results.Some? ==> forall d :: d in ds <==> d in Domains(results.value, parse)
  {
    if results.None? then [] else Dedupe(Domains(results.value, parse))
  }

  /** uniqueFileTypes: each file type of a result once, none empty, in the order of first occurrence. */
  function UniqueFileTypes(results: Option<seq<Row>>): (ts: seq<string>)
    ensures NoDuplicates(ts) && "" !in ts
    ensures results.None? ==> ts == []
    ensures results.Some? ==> forall t :: t in ts <==> t in FileTypes(results.value)
  {
    if results.None? then [] else Dedupe(FileTypes(results.value))
  }

  /** The choices are offered in the order in which they first occur among the results. */
  lemma ChoicesInFirstOccurrenceOrder(rows: seq<Row>, parse: UrlParser)
    ensures var ds := UniqueDomains(Some(rows), parse);
      forall i, j :: 0 <= i < j < |ds| ==> FirstIndex(Domains(rows, parse), ds[i]) < FirstIndex(Domains(rows, parse), ds[j])
    ensures var ts := UniqueFileTypes(Some(rows));
      forall i, j :: 0 <= i < j < |ts| ==> FirstIndex(FileTypes(rows), ts[i]) < FirstIndex(FileTypes(rows), ts[j])
  {
    DedupeFirstOccurrenceOrder(Domains(rows, parse));
    DedupeFirstOccurrenceOrder(FileTypes(rows));
  }

  /** The hook's filter state. */
  class FilteringView {
    var filters: FilterState

    /** No domain or file type is selected twice. */
    predicate Valid()
      reads this
    {
      NoDuplicates(filters.domains) && NoDuplicates(filters.fileTypes)
    }

    constructor ()
      ensures Valid() && filters == InitialFilters
    {
      filters := InitialFilters;
    }

    /** handleSearchChange: only the search term changes. */
    method HandleSearchChange(term: string)
      requires Valid()
      modifies this
      ensures Valid() && filters == old(filters).(searchTerm := term)
    {
      filters := filters.(searchTerm := term);
    }

    /** handleSortChange. */
    method HandleSortChange(field: SortField)
      requires Valid()
      modifies this
      ensures Valid() && filters == SortChanged(old(filters), field)
    {
      if filters.sortBy == field {
        filters := filters.(sortOrder := if filters.sortOrder == Asc then Desc else Asc);
      } else {
        filters := filters.(sortBy := field, sortOrder := Desc);
      }
    }

    /** toggleDomainFilter: only the domain list changes, by the toggle. */
    method ToggleDomainFilter(domain: string)
      requires Valid()
      modifies this
      ensures Valid() && filters == old(filters).(domains := Toggle(old(filters).domains, domain))
    {
      ToggleNoDuplicates(filters.domains, domain);
      filters := filters.(domains := Toggle(filters.domains, domain));
    }

    /** toggleFileTypeFilter: only the file-type list changes, by the toggle. */
    method ToggleFileTypeFilter(fileType: string)
      requires Valid()
      modifies this
      ensures Valid() && filters == old(filters).(fileTypes := Toggle(old(filters).fileTypes, fileType))
    {
      ToggleNoDuplicates(filters.fileTypes, fileType);
      filters := filters.(fileTypes := Toggle(filters.fileTypes, fileType));
    }
  }
}
