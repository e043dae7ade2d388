/**
 * The review queries: getReviewTags lists a session's tags by name, and
 * getResultsWithTags returns one page of a session's results ordered by
 * title, optionally only those carrying one tag or only those carrying
 * none, with the page arithmetic of the reply.
 */
module ReviewQueries {
  import opened Wrappers
  import opened Entities
  import opened Sorting
  import opened Lists

  datatype Pagination = Pagination(totalCount: nat, totalPages: nat, currentPage: int, limit: int)

  datatype ResultsPage = ResultsPage(results: seq<ProcessedResult>, pagination: Pagination)

  const TagsFailed := HttpError(InternalError, "Failed to fetch review tags")
  const ResultsFailed := HttpError(InternalError, "Failed to fetch results")

  /** The page and page size used when the caller gives none. */
  const DefaultPage := 1
  const DefaultLimit := 20

  function NameKey(t: ReviewTag): SortKey
  {
    StrKey(t.name)
  }

  function TitleKey(p: ProcessedResult): SortKey
  {
    StrKey(p.title)
  }

  /** The tags of a session, ordered by name ascending. */
  function TagsByName(tags: seq<ReviewTag>, sessionId: Id): (r: seq<ReviewTag>)
    ensures SortedBy(r, NameKey, false)
    ensures forall t :: t in r <==> t in tags && t.sessionId == sessionId
    ensures multiset(r) == multiset(Filter(tags, (t: ReviewTag) => t.sessionId == sessionId))
  {
    var own := Filter(tags, (t: ReviewTag) => t.sessionId == sessionId);
    var r := SortBy(own, NameKey, false);
    SameMembers(r, own);
    r
  }

  /**
   * getReviewTags: 401 without a caller; a failing session lookup is a 500,
   * then 404 and 403 from the ownership check.
   */
  function GetReviewTags(user: Option<Id>, db: Database, sessionId: Id, storeFails: bool): (r: Result<seq<ReviewTag>>)
    ensures user.None? ==> r == Err(HttpError(Unauthorized, "Unauthorized"))
    ensures user.Some? && storeFails ==> r == Err(TagsFailed)
    ensures user.Some? && !storeFails ==>
      r == if SessionAccess(user, db.sessions, sessionId).Err? then Err(SessionAccess(user, db.sessions, sessionId).error)
           else Ok(TagsByName(db.tags, sessionId))
  {
    if user.None? then Err(HttpError(Unauthorized, "Unauthorized"))
    else if storeFails then Err(TagsFailed)
    else
      match SessionAccess(user, db.sessions, sessionId)
      case Err(e) => Err(e)
      case Ok(_) => Ok(TagsByName(db.tags, sessionId))
  }

  /**
   * The `where` of getResultsWithTags: the session's results; with a tag id
   * only those carrying that tag, otherwise with `untaggedOnly` only those
   * carrying no tag.
   */
  predicate Wanted(db: Database, sessionId: Id, tagId: Option<Id>, untaggedOnly: bool, p: ProcessedResult)
  {
    p.sessionId == sessionId &&
    if tagId.Some? then HasTag(db, p.id, tagId.value) else untaggedOnly ==> !IsTagged(db, p.id)
  }

  function Matching(db: Database, sessionId: Id, tagId: Option<Id>, untaggedOnly: bool): (rs: seq<ProcessedResult>)
    ensures forall p :: p in rs <==> p in db.processed && Wanted(db, sessionId, tagId, untaggedOnly, p)
  {
    Filter(db.processed, (p: ProcessedResult) => Wanted(db, sessionId, tagId, untaggedOnly, p))
  }

  /** A tag id takes precedence: `untaggedOnly` is then ignored. */
  lemma TagIdWins(db: Database, sessionId: Id, tagId: Id)
    ensures Matching(db, sessionId, Some(tagId), true) == Matching(db, sessionId, Some(tagId), false)
  {
    FilterSamePredicate(db.processed,
      (p: ProcessedResult) => Wanted(db, sessionId, Some(tagId), true, p),
      (p: ProcessedResult) => Wanted(db, sessionId, Some(tagId), false, p));
  }

  /**
   * A result with the tag, a result without tags, and any result of the
   * session with neither filter: every selection is part of the unfiltered
   * one, and the two filters never select the same result.
   */
  lemma FiltersNarrow(db: Database, sessionId: Id, tagId: Id, p: ProcessedResult)
    ensures p in Matching(db, sessionId, Some(tagId), false) ==> p in Matching(db, sessionId, None, false)
    ensures p in Matching(db, sessionId, None, true) ==> p in Matching(db, sessionId, None, false)
    ensures !(p in Matching(db, sessionId, Some(tagId), false) && p in Matching(db, sessionId, None, true))
  {
  }

  /** `Math.ceil(totalCount / limit)`: the fewest pages of `limit` results that hold them all. */
  function PageCount(totalCount: nat, limit: int): (pages: nat)
    requires limit >= 1
    ensures totalCount <= pages * limit
    ensures pages > 0 ==> (pages - 1) * limit < totalCount
    ensures pages == 0 <==> totalCount == 0
  {
    var pages := (totalCount + limit - 1) / limit;
    assert pages * limit <= totalCount + limit - 1 < (pages + 1) * limit;
    pages
  }

  /** `skip: skip, take: limit`: at most `limit` results from position `skip` on. */
  function Window<T>(s: seq<T>, skip: nat, limit: nat): (r: seq<T>)
    ensures |r| <= limit
    ensures skip >= |s| ==> r == []
    ensures skip < |s| ==> |r| == if |s| - skip < limit then |s| - skip else limit
    ensures forall i :: 0 <= i < |r| ==> skip + i < |s| && r[i] == s[skip + i]
  {
    if skip >= |s| then []
    else if |s| - skip < limit then s[skip..]
    else s[skip..skip + limit]
  }

  /** `skip: (page - 1) * limit, take: limit`: the results of page `page`. */
  function PageSlice<T>(s: seq<T>, page: int, limit: int): (r: seq<T>)
    requires page >= 1 && limit >= 1
    ensures |r| <= limit
    ensures (page - 1) * limit >= |s| ==> r == []
    ensures (page - 1) * limit < |s| ==> |r| == if |s| - (page - 1) * limit < limit then |s| - (page - 1) * limit else limit
    ensures forall i :: 0 <= i < |r| ==> (page - 1) * limit + i < |s| && r[i] == s[(page - 1) * limit + i]
  {
    MulMonotone(0, page - 1, limit);
    Window(s, (page - 1) * limit, limit)
  }

  /** Every listed result is on exactly the page its position says, and on no later page past the count. */
  lemma EveryResultOnItsPage<T>(s: seq<T>, limit: int, i: nat)
    requires limit >= 1 && i < |s|
    ensures var page := i / limit + 1;
      && 1 <= page <= PageCount(|s|, limit)
      && i % limit < |PageSlice(s, page, limit)|
      && PageSlice(s, page, limit)[i % limit] == s[i]
  {
    var q, r := i / limit, i % limit;
    var skip := q * limit;
    assert skip + r == i && 0 <= r < limit;
    var pages := PageCount(|s|, limit);
    if pages <= q {
      MulMonotone(pages, q, limit);
    }
    assert (q + 1 - 1) * limit == skip;
    var slice := PageSlice(s, q + 1, limit);
    assert slice == Window(s, skip, limit);
  }

  /** Pages past the page count are empty. */
  lemma PagesPastTheEndEmpty<T>(s: seq<T>, limit: int, page: int)
    requires limit >= 1 && page > PageCount(|s|, limit)
    ensures PageSlice(s, page, limit) == []
  {
    MulMonotone(PageCount(|s|, limit), page - 1, limit);
  }

  lemma MulMonotone(a: int, b: int, c: int)
    requires a <= b && c >= 0
    ensures a * c <= b * c
  {
  }

  /**
   * getResultsWithTags: 401 without a caller; a failing store is a 500;
   * 404 and 403 from the ownership check; then the page `page` (default 1)
   * of `limit` (default 20) results of the selection ordered by title, the
   * size of the selection and its page count. The defaults replace only an
   * omitted argument: a given `null` page makes `skip` negative and a `null`
   * limit reaches `take`, and the store refuses both, a 500.
   */
  function GetResultsWithTags(user: Option<Id>, db: Database, sessionId: Id, tagId: Option<Id>, untaggedOnly: bool,
                              page: Arg<int>, limit: Arg<int>, storeFails: bool): (r: Result<ResultsPage>)
    requires page.Given? && page.value.Some? ==> page.value.value >= 1
    requires limit.Given? && limit.value.Some? ==> limit.value.value >= 1
    ensures user.None? ==> r == Err(HttpError(Unauthorized, "Unauthorized"))
    ensures user.Some? && storeFails ==> r == Err(ResultsFailed)
    ensures user.Some? && !storeFails && SessionAccess(user, db.sessions, sessionId).Err? ==>
      r == Err(SessionAccess(user, db.sessions, sessionId).error)
    ensures
      && user.Some? && !storeFails && SessionAccess(user, db.sessions, sessionId).Ok?
      && (page == Given(None) || limit == Given(None)) ==>
      r == Err(ResultsFailed)
    ensures r.Ok? <==>
      && user.Some? && !storeFails && SessionAccess(user, db.sessions, sessionId).Ok?
      && page != Given(None) && limit != Given(None)
    ensures r.Ok? ==>
      var p := WithDefault(page, DefaultPage).value;
      var l := WithDefault(limit, DefaultLimit).value;
      var selected := Matching(db, sessionId, tagId, untaggedOnly);
      && r.value.results == PageSlice(SortBy(selected, TitleKey, false), p, l)
      && r.value.pagination == Pagination(|selected|, PageCount(|selected|, l), p, l)
  {
    if user.None? then Err(HttpError(Unauthorized, "Unauthorized"))
    else if storeFails then Err(ResultsFailed)
    else
      match SessionAccess(user, db.sessions, sessionId)
      case Err(e) => Err(e)
      case Ok(_) =>
        match (WithDefault(page, DefaultPage), WithDefault(limit, DefaultLimit))
        case (Some(p), Some(l)) =>
          var selected := Matching(db, sessionId, tagId, untaggedOnly);
          var totalCount := |selected|;
          var results := PageSlice(SortBy(selected, TitleKey, false), p, l);
          Ok(ResultsPage(results, Pagination(totalCount, PageCount(totalCount, l), p, l)))
        case _ => Err(ResultsFailed)
  }

  /** Omitted page and limit take the defaults 1 and 20; a `null` one is refused. */
  lemma OmittedPagingDefaults(user: Option<Id>, db: Database, sessionId: Id, tagId: Option<Id>, untaggedOnly: bool)
    requires user.Some? && SessionAccess(user, db.sessions, sessionId).Ok?
    ensures var r := GetResultsWithTags(user, db, sessionId, tagId, untaggedOnly, Undefined, Undefined, false);
      r.Ok? && r.value.pagination.currentPage == 1 && r.value.pagination.limit == 20
    ensures GetResultsWithTags(user, db, sessionId, tagId, untaggedOnly, Given(None), Undefined, false) == Err(ResultsFailed)
    ensures GetResultsWithTags(user, db, sessionId, tagId, untaggedOnly, Undefined, Given(None), false) == Err(ResultsFailed)
  {
  }

  /** A page of a sorted list is sorted. */
  lemma PageSorted<T>(s: seq<T>, key: T -> SortKey, page: int, limit: int)
    requires page >= 1 && limit >= 1 && SortedBy(s, key, false)
    ensures SortedBy(PageSlice(s, page, limit), key, false)
  {
    var r := PageSlice(s, page, limit);
    var skip := (page - 1) * limit;
    forall i, j | 0 <= i < j < |r|
      ensures InOrder(key(r[i]), key(r[j]), false)
    {
      assert r[i] == s[skip + i] && r[j] == s[skip + j];
    }
  }

  /** Whatever is on a page is in the list. */
  lemma PageMembers<T>(s: seq<T>, page: int, limit: int)
    requires page >= 1 && limit >= 1
    ensures forall x :: x in PageSlice(s, page, limit) ==> x in s
  {
    var r := PageSlice(s, page, limit);
    var skip := (page - 1) * limit;
    forall x | x in r
      ensures x in s
    {
      var i :| 0 <= i < |r| && r[i] == x;
      assert x == s[skip + i];
    }
  }

  /**
   * A page holds at most `limit` results, each selected by the filters, in
   * title order.
   */
  lemma PageIsOrderedSelection(db: Database, sessionId: Id, tagId: Option<Id>, untaggedOnly: bool, page: int, limit: int)
    requires page >= 1 && limit >= 1
    ensures var selected := Matching(db, sessionId, tagId, untaggedOnly);
      var results := PageSlice(SortBy(selected, TitleKey, false), page, limit);
      && |results| <= limit
      && SortedBy(results, TitleKey, false)
      && forall p :: p in results ==> p in db.processed && Wanted(db, sessionId, tagId, untaggedOnly, p)
  {
    var selected := Matching(db, sessionId, tagId, untaggedOnly);
    var sorted := SortBy(selected, TitleKey, false);
    PageSorted(sorted, TitleKey, page, limit);
    PageMembers(sorted, page, limit);
    forall p | p in sorted
      ensures p in selected
    {
      assert p in multiset(sorted);
    }
  }
}
