/**
 * The persisted entities the server actions read and write, and the
 * session-ownership check that every session-scoped action performs first.
 */
module Entities {
  import opened Wrappers

  type Id = nat

  /** A user; the email column may hold null. */
  datatype User = User(id: Id, email: Option<string>, password: string, role: string, organizationId: Option<Id>)

  datatype SearchSession = SearchSession(
    id: Id, userId: Id, name: string, description: Option<string>, teamId: Option<string>)

  /** A search query; `None` stands for a column holding null. */
  datatype SearchQuery = SearchQuery(
    id: Id, sessionId: Id, query: Option<string>, description: Option<string>,
    queryType: Option<string>, structuredData: Option<string>)

  datatype RawSearchResult = RawSearchResult(
    id: Id, queryId: Id, title: string, url: string, snippet: string, rank: int, searchEngine: string)

  datatype Metadata = Metadata(domain: string, fileType: string, source: string, rawRank: int, processedAt: string)

  datatype ProcessedResult = ProcessedResult(
    id: Id, rawResultId: Id, sessionId: Id, title: string, url: string, snippet: string, metadata: Metadata)

  /** A duplicate relationship; the constant similarity score 1.0 is not kept. */
  datatype DuplicateRelationship = DuplicateRelationship(primaryResultId: Id, duplicateResultId: Id, duplicateType: string)

  datatype ReviewTag = ReviewTag(id: Id, sessionId: Id, name: string, color: string)

  datatype TagAssignment = TagAssignment(id: Id, resultId: Id, tagId: Id)

  /** A note; `createdAt` is its creation time in milliseconds. */
  datatype Note = Note(id: Id, resultId: Id, content: string, createdAt: int)

  /**
   * The rows the reporting actions read. Queries and raw results are found
   * by id; the other tables are kept in the order the store returns them.
   */
  datatype Database = Database(
    sessions: map<Id, SearchSession>,
    queries: map<Id, SearchQuery>,
    raw: map<Id, RawSearchResult>,
    processed: seq<ProcessedResult>,
    relationships: seq<DuplicateRelationship>,
    tags: seq<ReviewTag>,
    assignments: seq<TagAssignment>,
    notes: seq<Note>)

  /** The first tag with id `id`, if any. */
  function TagById(tags: seq<ReviewTag>, id: Id): (t: Option<ReviewTag>)
    ensures t.Some? ==> t.value in tags && t.value.id == id
    ensures t.None? <==> forall i :: 0 <= i < |tags| ==> tags[i].id != id
  {
    if tags == [] then None
    else if tags[0].id == id then Some(tags[0])
    else TagById(tags[1..], id)
  }

  /** The result `resultId` carries an assignment of tag `tagId` (`reviewTags: { some: { tagId } }`). */
  predicate HasTag(db: Database, resultId: Id, tagId: Id)
  {
    exists i :: 0 <= i < |db.assignments| && db.assignments[i].resultId == resultId && db.assignments[i].tagId == tagId
  }

  /** The result carries at least one tag assignment (`reviewTags: { some: {} }`). */
  predicate IsTagged(db: Database, resultId: Id)
  {
    exists i :: 0 <= i < |db.assignments| && db.assignments[i].resultId == resultId
  }

  /**
   * The foreign keys of the schema: a processed result's raw result and that
   * raw result's query exist, and an assignment's tag exists.
   */
  predicate ForeignKeysHold(db: Database)
  {
    && (forall p :: p in db.processed ==>
          p.rawResultId in db.raw && db.raw[p.rawResultId].queryId in db.queries)
    && (forall a :: a in db.assignments ==> TagById(db.tags, a.tagId).Some?)
  }

  /**
   * The check at the head of the session-scoped actions: 401 without a
   * caller, then 404 for an unknown session, then 403 for a session the
   * caller does not own.
   */
  function SessionAccess(user: Option<Id>, sessions: map<Id, SearchSession>, sessionId: Id): (r: Result<SearchSession>)
    ensures r.Ok? <==> user.Some? && sessionId in sessions && sessions[sessionId].userId == user.value
    ensures r.Ok? ==> r.value == sessions[sessionId]
    ensures r.Err? ==> r.error.status == (if user.None? then 401 else if sessionId !in sessions then 404 else 403)
  {
    if user.None? then Err(HttpError(Unauthorized, "Unauthorized"))
    else if sessionId !in sessions then Err(HttpError(NotFound, "Search session not found"))
    else if sessions[sessionId].userId != user.value then Err(HttpError(Forbidden, "You don't have access to this session"))
    else Ok(sessions[sessionId])
  }
}
