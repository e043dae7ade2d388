/**
 * The state behind the review page (the `useResultReview` hook): the
 * current page, the tag filter and the untagged-only switch; the request it
 * sends for the results; the guards it applies before calling the server;
 * and the values it shows while no data has arrived.
 */
module ResultReview {
  import opened Wrappers
  import opened Text
  import opened Entities
  import opened ReviewQueries
  import Pagination

  /** The page size the review page asks for. */
  const PageLimit := 10

  /** The arguments of the `getResultsWithTags` request. */
  datatype ResultsRequest = ResultsRequest(sessionId: Id, tagId: Option<Id>, untaggedOnly: bool, page: int, limit: int)

  /** The client's view of the pagination: the server's, or the placeholder. */
  datatype PaginationInfo = PaginationInfo(totalCount: int, totalPages: int, currentPage: int)

  /** A server action the hook calls, with its arguments. */
  datatype ServerCall =
    | CreateReviewTag(sessionId: Id, name: string, color: string)
    | AssignTag(resultId: Id, tagId: Id, remove: bool)
    | CreateNote(resultId: Id, content: string)

  /** What a handler does: call the server, or throw before calling it. */
  datatype Outcome = Call(call: ServerCall) | Throw(message: string)

  /** createTag: a blank name throws before the server is called. */
  function CreateTagCall(sessionId: Id, name: string, color: string): (o: Outcome)
    ensures o.Throw? <==> IsBlank(name)
    ensures o.Throw? ==> o.message == "Tag name is required"
    ensures o.Call? ==> o.call == CreateReviewTag(sessionId, name, color)
  {
    if IsBlank(name) then Throw("Tag name is required") else Call(CreateReviewTag(sessionId, name, color))
  }

  /** assignTag: always calls the server, adding the tag. */
  function AssignTagCall(resultId: Id, tagId: Id): (o: Outcome)
    ensures o.Call? && o.call.AssignTag? && !o.call.remove
    ensures o.call.resultId == resultId && o.call.tagId == tagId
  {
    Call(AssignTag(resultId, tagId, false))
  }

  /** removeTag: the same server action, asked to remove. */
  function RemoveTagCall(resultId: Id, tagId: Id): (o: Outcome)
    ensures o.Call? && o.call.AssignTag? && o.call.remove
    ensures AssignTagCall(resultId, tagId) == Call(o.call.(remove := false))
  {
    Call(AssignTag(resultId, tagId, true))
  }

  /** addNote: blank content throws before the server is called. */
  function AddNoteCall(resultId: Id, content: string): (o: Outcome)
    ensures o.Throw? <==> IsBlank(content)
    ensures o.Throw? ==> o.message == "Note content is required"
    ensures o.Call? ==> o.call == CreateNote(resultId, content)
  {
    if IsBlank(content) then Throw("Note content is required") else Call(CreateNote(resultId, content))
  }

  /** The pagination shown: the server's, or `{0, 1, 1}` while there is none. */
  function ShownPagination(data: Option<ResultsPage>): (p: PaginationInfo)
    ensures data.None? ==> p == PaginationInfo(0, 1, 1)
    ensures data.Some? ==>
      var q := data.value.pagination;
      p == PaginationInfo(q.totalCount, q.totalPages, q.currentPage)
  {
    match data
    case None => PaginationInfo(0, 1, 1)
    case Some(page) => PaginationInfo(page.pagination.totalCount, page.pagination.totalPages, page.pagination.currentPage)
  }

  /** The results shown: the server's page, or none. */
  function ShownResults(data: Option<ResultsPage>): (rs: seq<ProcessedResult>)
    ensures data.None? ==> rs == []
    ensures data.Some? ==> rs == data.value.results
  {
    if data.Some? then data.value.results else []
  }

  /** The tags shown: the server's, or none. */
  function ShownTags(data: Option<seq<ReviewTag>>): (tags: seq<ReviewTag>)
    ensures data.None? ==> tags == []
    ensures data.Some? ==> tags == data.value
  {
    if data.Some? then data.value else []
  }

  /**
   * Neither the placeholder nor the reply for an empty selection shows a
   * page bar.
   */
  lemma NoBarWithoutPages(data: Option<ResultsPage>)
    requires data.Some? ==> data.value.pagination.limit >= 1
    requires data.Some? ==> data.value.pagination.totalPages == PageCount(0, data.value.pagination.limit)
    ensures var p := ShownPagination(data);
      Pagination.Render(p.currentPage, p.totalPages).None?
  {
  }

  class ReviewView {
    const sessionId: Id
    var currentPage: int
    var selectedTagId: Option<Id>
    var untaggedOnly: bool

    /** The page asked for is never below the first. */
    predicate Valid()
      reads this
    {
      currentPage >= 1
    }

    /** The first page, no tag filter, all results. */
    constructor (sessionId: Id)
      ensures Valid()
      ensures this.sessionId == sessionId && currentPage == 1 && selectedTagId == None && !untaggedOnly
    {
      this.sessionId := sessionId;
      currentPage := 1;
      selectedTagId := None;
      untaggedOnly := false;
    }

    /** The request for the results of the current selection, ten per page. */
    function Request(): (q: ResultsRequest)
      reads this
      ensures Valid() ==> q.page >= 1 && q.limit >= 1
      ensures q.limit == PageLimit && q.page == currentPage
      ensures q.sessionId == sessionId && q.tagId == selectedTagId && q.untaggedOnly == untaggedOnly
    {
      ResultsRequest(sessionId, selectedTagId, untaggedOnly, currentPage, PageLimit)
    }

    /**
     * onPageChange: a page below the first, or past the last page of the
     * data received, is ignored; any other page becomes current. Without
     * data only the lower bound applies.
     */
    method HandlePageChange(page: int, data: Option<ResultsPage>)
      requires Valid()
      modifies this`currentPage
      ensures Valid()
      ensures page < 1 || (data.Some? && page > data.value.pagination.totalPages) ==> currentPage == old(currentPage)
      ensures 1 <= page && (data.None? || page <= data.value.pagination.totalPages) ==> currentPage == page
      ensures data.Some? && old(currentPage) <= data.value.pagination.totalPages ==>
        currentPage <= data.value.pagination.totalPages
    {
      if page < 1 || (data.Some? && page > data.value.pagination.totalPages) {
        return;
      }
      currentPage := page;
    }

    /** setSelectedTagId: the tag filter changes, the page stays. */
    method SetSelectedTagId(tagId: Option<Id>)
      requires Valid()
      modifies this`selectedTagId
      ensures Valid() && selectedTagId == tagId
    {
      selectedTagId := tagId;
    }

    /** setUntaggedOnly: the switch changes, the page stays. */
    method SetUntaggedOnly(on: bool)
      requires Valid()
      modifies this`untaggedOnly
      ensures Valid() && untaggedOnly == on
    {
      untaggedOnly := on;
    }
  }

  /**
   * The request a valid view sends is one the server serves: its reply holds
   * at most ten results and echoes the page asked for.
   */
  lemma RequestIsServed(user: Option<Id>, db: Database, q: ResultsRequest, storeFails: bool)
    requires q.page >= 1 && q.limit == PageLimit
    ensures var r := GetResultsWithTags(user, db, q.sessionId, q.tagId, q.untaggedOnly, Given(Some(q.page)), Given(Some(q.limit)), storeFails);
      r.Ok? ==> |r.value.results| <= PageLimit && r.value.pagination.currentPage == q.page && r.value.pagination.limit == PageLimit
  {
  }
}
