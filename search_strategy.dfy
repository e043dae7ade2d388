/**
 * The search-strategy actions: createSearchSession and createSearchQuery
 * validate their input and store one new row; updateSearchQuery writes the
 * fields its caller provides to a query of one of the caller's sessions and
 * leaves every other field as it was.
 *
 * `storeFails` stands for a failure of the final write, the only store call
 * these actions catch. The ownership lookups before it are read as always
 * succeeding; a failure there would escape uncaught. The creating actions reply with the columns their
 * `select` names, not the whole row.
 */
module SearchStrategy {
  import opened Wrappers
  import opened Text
  import opened Entities

  const NotAuthorized := HttpError(Unauthorized, "Not authorized")
  const SessionFailed := HttpError(InternalError, "Failed to create search session")
  const QueryFailed := HttpError(InternalError, "Failed to create search query")
  const UpdateFailed := HttpError(InternalError, "Failed to update search query")

  /** `if (x) data.field = x`: the value stored for an optional argument. */
  function IfTruthy(s: Option<string>): (stored: Option<string>)
    ensures stored.Some? <==> Truthy(s)
    ensures stored.Some? ==> stored == s
  {
    if Truthy(s) then s else None
  }

  /** The arguments of updateSearchQuery besides the id. */
  datatype QueryUpdate = QueryUpdate(
    query: Arg<string>, description: Arg<string>, queryType: Arg<string>, structuredData: Arg<string>)

  /** The query after the update: only the provided fields change. */
  function Updated(q: SearchQuery, u: QueryUpdate): (r: SearchQuery)
    ensures r.id == q.id && r.sessionId == q.sessionId
    ensures r.query == Apply(u.query, q.query) && r.description == Apply(u.description, q.description)
    ensures r.queryType == Apply(u.queryType, q.queryType)
    ensures r.structuredData == Apply(u.structuredData, q.structuredData)
  {
    q.(query := Apply(u.query, q.query), description := Apply(u.description, q.description),
       queryType := Apply(u.queryType, q.queryType), structuredData := Apply(u.structuredData, q.structuredData))
  }

  /** An update providing no field leaves the query as it was. */
  lemma EmptyUpdateChangesNothing(q: SearchQuery)
    ensures Updated(q, QueryUpdate(Undefined, Undefined, Undefined, Undefined)) == q
  {
  }

  /** Applying the same update twice is applying it once. */
  lemma UpdateIdempotent(q: SearchQuery, u: QueryUpdate)
    ensures Updated(Updated(q, u), u) == Updated(q, u)
  {
  }

  /**
   * A field changes only when the update gives it, and a given field, even
   * a given `null`, ends up holding exactly what was given.
   */
  lemma UpdateWritesExactlyGivenFields(q: SearchQuery, u: QueryUpdate)
    ensures var r := Updated(q, u);
      && (r.query != q.query ==> u.query.Given?)
      && (r.description != q.description ==> u.description.Given?)
      && (r.queryType != q.queryType ==> u.queryType.Given?)
      && (r.structuredData != q.structuredData ==> u.structuredData.Given?)
    ensures u.description == Given(None) ==> Updated(q, u).description.None?
  {
  }

  /** What createSearchSession's `select` returns of the new session (timestamps aside). */
  datatype SessionReply = SessionReply(id: Id, name: string, description: Option<string>)

  /** What createSearchQuery's `select` returns of the new query (timestamps aside). */
  datatype QueryReply = QueryReply(id: Id, query: Option<string>, description: Option<string>, sessionId: Id)

  function SessionReplyOf(s: SearchSession): SessionReply
  {
    SessionReply(s.id, s.name, s.description)
  }

  function QueryReplyOf(q: SearchQuery): QueryReply
  {
    QueryReply(q.id, q.query, q.description, q.sessionId)
  }

  class StrategyStore {
    var sessions: map<Id, SearchSession>
    var queries: map<Id, SearchQuery>
    var nextId: Id

    /** Rows are stored under their own ids, below the next id, and every query's session exists. */
    ghost predicate Valid()
      reads this
    {
      && (forall id :: id in sessions ==> sessions[id].id == id && id < nextId)
      && (forall id :: id in queries ==> queries[id].id == id && id < nextId && queries[id].sessionId in sessions)
    }

    constructor ()
      ensures Valid() && sessions == map[] && queries == map[]
    {
      sessions, queries, nextId := map[], map[], 0;
    }

    /**
     * createSearchSession: 401 without a caller, 400 without a name, then
     * one new session owned by the caller; its team id only when truthy.
     */
    method CreateSearchSession(user: Option<Id>, name: Option<string>, description: Option<string>,
                               teamId: Option<string>, storeFails: bool) returns (r: Result<SessionReply>)
      requires Valid()
      modifies this
      ensures Valid()
      ensures queries == old(queries)
      ensures user.None? ==> r == Err(NotAuthorized)
      ensures user.Some? && Missing(name) ==> r == Err(HttpError(BadRequest, "Name is required"))
      ensures user.Some? && !Missing(name) && storeFails ==> r == Err(SessionFailed)
      ensures r.Ok? <==> user.Some? && !Missing(name) && !storeFails
      ensures r.Ok? ==>
        && old(nextId) !in old(sessions)
        && sessions == old(sessions)[old(nextId) := SearchSession(old(nextId), user.value, name.value, description, IfTruthy(teamId))]
      ensures r.Ok? ==> r.value == SessionReplyOf(sessions[old(nextId)])
      ensures r.Err? ==> sessions == old(sessions) && nextId == old(nextId)
    {
      if user.None? {
        return Err(NotAuthorized);
      }
      if Missing(name) {
        return Err(HttpError(BadRequest, "Name is required"));
      }
      if storeFails {
        return Err(SessionFailed);
      }
      var session := SearchSession(nextId, user.value, name.value, description, IfTruthy(teamId));
      sessions := sessions[nextId := session];
      nextId := nextId + 1;
      r := Ok(SessionReplyOf(session));
    }

    /**
     * createSearchQuery: 401 without a caller; 400 without a session id or
     * a query string, before any lookup; 404 alike for a missing session and
     * for another user's; then one new query, its type and structured data
     * only when truthy.
     */
    method CreateSearchQuery(user: Option<Id>, sessionId: Option<Id>, query: Option<string>, description: Option<string>,
                             queryType: Option<string>, structuredData: Option<string>, storeFails: bool)
      returns (r: Result<QueryReply>)
      requires Valid()
      modifies this
      ensures Valid()
      ensures sessions == old(sessions)
      ensures user.None? ==> r == Err(NotAuthorized)
      ensures user.Some? && sessionId.None? ==> r == Err(HttpError(BadRequest, "Session ID is required"))
      ensures user.Some? && sessionId.Some? && Missing(query) ==> r == Err(HttpError(BadRequest, "Query string is required"))
      ensures user.Some? && sessionId.Some? && !Missing(query) ==>
        var owned := sessionId.value in sessions && sessions[sessionId.value].userId == user.value;
        (!owned ==> r == Err(HttpError(NotFound, "Search session not found or access denied"))) &&
        (owned && storeFails ==> r == Err(QueryFailed))
      ensures r.Ok? <==>
        user.Some? && sessionId.Some? && !Missing(query) && !storeFails &&
        sessionId.value in sessions && sessions[sessionId.value].userId == user.value
      ensures r.Ok? ==>
        && old(nextId) !in old(queries)
        && queries == old(queries)[old(nextId) :=
             SearchQuery(old(nextId), sessionId.value, query, description, IfTruthy(queryType), IfTruthy(structuredData))]
      ensures r.Ok? ==> r.value == QueryReplyOf(queries[old(nextId)])
      ensures r.Err? ==> queries == old(queries) && nextId == old(nextId)
    {
      if user.None? {
        return Err(NotAuthorized);
      }
      if sessionId.None? {
        return Err(HttpError(BadRequest, "Session ID is required"));
      }
      if Missing(query) {
        return Err(HttpError(BadRequest, "Query string is required"));
      }
      if !(sessionId.value in sessions && sessions[sessionId.value].userId == user.value) {
        return Err(HttpError(NotFound, "Search session not found or access denied"));
      }
      if storeFails {
        return Err(QueryFailed);
      }
      var newQuery := SearchQuery(nextId, sessionId.value, query, description, IfTruthy(queryType), IfTruthy(structuredData));
      queries := queries[nextId := newQuery];
      nextId := nextId + 1;
      r := Ok(QueryReplyOf(newQuery));
    }

    /** The query `id` exists and belongs to a session of the caller. */
    predicate Owns(userId: Id, id: Id)
      reads this
    {
      id in queries && queries[id].sessionId in sessions && sessions[queries[id].sessionId].userId == userId
    }

    /**
     * updateSearchQuery: 401 without a caller, 400 without an id, 404 alike
     * for a missing query and another user's; then exactly the provided
     * fields of that one query are written.
     */
    method UpdateSearchQuery(user: Option<Id>, id: Option<Id>, u: QueryUpdate, storeFails: bool)
      returns (r: Result<SearchQuery>)
      requires Valid()
      modifies this`queries
      ensures Valid()
      ensures user.None? ==> r == Err(NotAuthorized)
      ensures user.Some? && id.None? ==> r == Err(HttpError(BadRequest, "Query ID is required"))
      ensures user.Some? && id.Some? && !Owns(user.value, id.value) ==>
        r == Err(HttpError(NotFound, "Search query not found or access denied"))
      ensures user.Some? && id.Some? && Owns(user.value, id.value) && storeFails ==> r == Err(UpdateFailed)
      ensures r.Ok? <==> user.Some? && id.Some? && Owns(user.value, id.value) && !storeFails
      ensures r.Ok? ==> id.Some? && id.value in old(queries)
      ensures r.Ok? ==> r.value == Updated(old(queries)[id.value], u) && queries == old(queries)[id.value := r.value]
      ensures r.Err? ==> queries == old(queries)
    {
      if user.None? {
        return Err(NotAuthorized);
      }
      if id.None? {
        return Err(HttpError(BadRequest, "Query ID is required"));
      }
      if !Owns(user.value, id.value) {
        return Err(HttpError(NotFound, "Search query not found or access denied"));
      }
      if storeFails {
        return Err(UpdateFailed);
      }
      var updatedQuery := Updated(queries[id.value], u);
      queries := queries[id.value := updatedQuery];
      r := Ok(updatedQuery);
    }
  }

  /** An update changes no query but the one it names. */
  lemma UpdateTouchesOneQuery(queries: map<Id, SearchQuery>, id: Id, u: QueryUpdate, other: Id)
    requires id in queries && other != id
    ensures var after := queries[id := Updated(queries[id], u)];
      other in after <==> other in queries
    ensures var after := queries[id := Updated(queries[id], u)];
      other in queries ==> after[other] == queries[other]
  {
  }
}
