/**
 * The review actions: createReviewTag adds a tag to a session, assignTag
 * links a tag to a processed result or removes that link, and createNote
 * adds a note to a result. The ReviewTag, ReviewTagAssignment and Note
 * tables are fields of a store object; sessions and processed results are
 * only read.
 *
 * Every action rethrows its HttpErrors and turns any other failure into a
 * 500; `storeFails` stands for a failure of the action's first store read.
 */
module ReviewActions {
  import opened Wrappers
  import opened Text
  import opened Entities
  import opened Lists

  const TagFailed := HttpError(InternalError, "Failed to create review tag")
  const AssignFailed := HttpError(InternalError, "Failed to assign tag")
  const NoteFailed := HttpError(InternalError, "Failed to create note")

  /** Two names the store's case-insensitive `equals` matches. */
  predicate SameName(a: string, b: string)
  {
    ToLower(a) == ToLower(b)
  }

  /** The `findFirst` of createReviewTag: the first tag of the session named `name`, ignoring case. */
  function FindTagNamed(tags: seq<ReviewTag>, sessionId: Id, name: string): (t: Option<ReviewTag>)
    ensures t.Some? ==> t.value in tags && t.value.sessionId == sessionId && SameName(t.value.name, name)
    ensures t.None? <==> forall i :: 0 <= i < |tags| ==> !(tags[i].sessionId == sessionId && SameName(tags[i].name, name))
  {
    if tags == [] then None
    else if tags[0].sessionId == sessionId && SameName(tags[0].name, name) then Some(tags[0])
    else FindTagNamed(tags[1..], sessionId, name)
  }

  /** No session has two tags whose names are equal ignoring case. */
  ghost predicate UniqueTagNames(tags: seq<ReviewTag>)
  {
    forall i, j :: 0 <= i < j < |tags| && tags[i].sessionId == tags[j].sessionId ==> !SameName(tags[i].name, tags[j].name)
  }

  /** A tag whose name no tag of its session already has keeps the names unique. */
  lemma UniqueTagNamesAppend(tags: seq<ReviewTag>, t: ReviewTag)
    requires UniqueTagNames(tags) && FindTagNamed(tags, t.sessionId, t.name).None?
    ensures UniqueTagNames(tags + [t])
  {
    var s := tags + [t];
    forall i, j | 0 <= i < j < |s| && s[i].sessionId == s[j].sessionId
      ensures !SameName(s[i].name, s[j].name)
    {
      if j == |tags| {
        assert !(tags[i].sessionId == t.sessionId && SameName(tags[i].name, t.name));
      }
    }
  }

  /** Appending a tag leaves the lookup of every existing tag id unchanged. */
  lemma {:induction false} TagByIdAppend(tags: seq<ReviewTag>, t: ReviewTag, id: Id)
    requires TagById(tags, id).Some?
    ensures TagById(tags + [t], id) == TagById(tags, id)
  {
    assert (tags + [t])[0] == tags[0];
    if tags[0].id != id {
      assert (tags + [t])[1..] == tags[1..] + [t];
      TagByIdAppend(tags[1..], t, id);
    }
  }

  /** The (result, tag) pairs the assignments link. */
  function Pairs(assignments: seq<TagAssignment>): set<(Id, Id)>
  {
    set a | a in assignments :: (a.resultId, a.tagId)
  }

  predicate Links(a: TagAssignment, resultId: Id, tagId: Id)
  {
    a.resultId == resultId && a.tagId == tagId
  }

  /** No two assignments link the same result to the same tag. */
  ghost predicate UniquePairs(assignments: seq<TagAssignment>)
  {
    forall i, j :: 0 <= i < j < |assignments| ==> !Links(assignments[j], assignments[i].resultId, assignments[i].tagId)
  }

  /**
   * The index of the first assignment linking `resultId` to `tagId`: the
   * `findFirst` of a removal and the `find` over the result's tags of an
   * addition.
   */
  function FindAssignment(assignments: seq<TagAssignment>, resultId: Id, tagId: Id): (k: Option<nat>)
    ensures k.Some? ==> k.value < |assignments| && Links(assignments[k.value], resultId, tagId)
    ensures k.Some? ==> forall i :: 0 <= i < k.value ==> !Links(assignments[i], resultId, tagId)
    ensures k.None? <==> forall i :: 0 <= i < |assignments| ==> !Links(assignments[i], resultId, tagId)
  {
    if assignments == [] then None
    else if Links(assignments[0], resultId, tagId) then Some(0)
    else
      var k := FindAssignment(assignments[1..], resultId, tagId);
      if k.None? then None else Some(k.value + 1)
  }

  /** A pair is linked exactly when an assignment links it. */
  lemma PairsHas(assignments: seq<TagAssignment>, resultId: Id, tagId: Id)
    ensures (resultId, tagId) in Pairs(assignments) <==> FindAssignment(assignments, resultId, tagId).Some?
  {
    var k := FindAssignment(assignments, resultId, tagId);
    if (resultId, tagId) in Pairs(assignments) {
      var a :| a in assignments && (a.resultId, a.tagId) == (resultId, tagId);
      var i :| 0 <= i < |assignments| && assignments[i] == a;
      assert Links(assignments[i], resultId, tagId);
    }
    if k.Some? {
      assert assignments[k.value] in assignments;
    }
  }

  /** Adding an assignment for an unlinked pair keeps the pairs unique and links exactly that pair more. */
  lemma AddAssignment(assignments: seq<TagAssignment>, a: TagAssignment)
    requires UniquePairs(assignments) && FindAssignment(assignments, a.resultId, a.tagId).None?
    ensures UniquePairs(assignments + [a])
    ensures Pairs(assignments + [a]) == Pairs(assignments) + {(a.resultId, a.tagId)}
  {
    var s := assignments + [a];
    forall i, j | 0 <= i < j < |s|
      ensures !Links(s[j], s[i].resultId, s[i].tagId)
    {
      if j == |assignments| {
        assert !Links(assignments[i], a.resultId, a.tagId);
      }
    }
  }

  /** Deleting one assignment keeps the pairs unique. */
  lemma RemoveKeepsUnique(assignments: seq<TagAssignment>, k: nat)
    requires k < |assignments| && UniquePairs(assignments)
    ensures UniquePairs(RemoveAt(assignments, k))
  {
    var rest := RemoveAt(assignments, k);
    forall i, j | 0 <= i < j < |rest|
      ensures !Links(rest[j], rest[i].resultId, rest[i].tagId)
    {
      var i', j' := if i < k then i else i + 1, if j < k then j else j + 1;
      assert rest[i] == assignments[i'] && rest[j] == assignments[j'];
    }
  }

  /** Every assignment left after a deletion was there before it. */
  lemma RemoveKeepsMembers(assignments: seq<TagAssignment>, k: nat)
    requires k < |assignments|
    ensures forall a :: a in RemoveAt(assignments, k) ==> a in assignments
  {
    var rest := RemoveAt(assignments, k);
    forall a | a in rest
      ensures a in assignments
    {
      assert a in multiset(rest);
    }
  }

  /** A linked pair other than the deleted assignment's stays linked. */
  lemma RemoveKeepsOtherPair(assignments: seq<TagAssignment>, k: nat, x: (Id, Id))
    requires k < |assignments| && x in Pairs(assignments) && x != (assignments[k].resultId, assignments[k].tagId)
    ensures x in Pairs(RemoveAt(assignments, k))
  {
    var rest := RemoveAt(assignments, k);
    var a :| a in assignments && (a.resultId, a.tagId) == x;
    var i :| 0 <= i < |assignments| && assignments[i] == a;
    assert a == rest[if i < k then i else i - 1];
  }

  /** Among unique pairs, the deleted assignment's pair is no longer linked. */
  lemma RemoveDropsPair(assignments: seq<TagAssignment>, k: nat)
    requires k < |assignments| && UniquePairs(assignments)
    ensures (assignments[k].resultId, assignments[k].tagId) !in Pairs(RemoveAt(assignments, k))
  {
    var rest := RemoveAt(assignments, k);
    forall a | a in rest
      ensures !Links(a, assignments[k].resultId, assignments[k].tagId)
    {
      var i :| 0 <= i < |rest| && rest[i] == a;
      if i < k {
        assert !Links(assignments[k], assignments[i].resultId, assignments[i].tagId);
      }
    }
  }

  /** Deleting the only assignment of a pair unlinks exactly that pair. */
  lemma RemoveUnlinks(assignments: seq<TagAssignment>, resultId: Id, tagId: Id)
    requires UniquePairs(assignments) && FindAssignment(assignments, resultId, tagId).Some?
    ensures var k := FindAssignment(assignments, resultId, tagId).value;
      Pairs(RemoveAt(assignments, k)) == Pairs(assignments) - {(resultId, tagId)}
  {
    var k := FindAssignment(assignments, resultId, tagId).value;
    var rest := RemoveAt(assignments, k);
    forall x | x in Pairs(assignments) - {(resultId, tagId)}
      ensures x in Pairs(rest)
    {
      RemoveKeepsOtherPair(assignments, k, x);
    }
    RemoveKeepsMembers(assignments, k);
    RemoveDropsPair(assignments, k);
  }

  /** Assigning a tag and then removing it gives back the assignments there were before. */
  lemma AssignThenRemove(assignments: seq<TagAssignment>, a: TagAssignment)
    requires FindAssignment(assignments, a.resultId, a.tagId).None?
    ensures FindAssignment(assignments + [a], a.resultId, a.tagId) == Some(|assignments|)
    ensures RemoveAt(assignments + [a], |assignments|) == assignments
  {
    var s := assignments + [a];
    assert Links(s[|assignments|], a.resultId, a.tagId);
  }

  /**
   * The ownership check of assignTag and createNote: 404 for an unknown
   * result, 403 for a result whose session another user owns.
   */
  function ResultAccess(userId: Id, sessions: map<Id, SearchSession>, results: map<Id, ProcessedResult>, resultId: Id)
    : (r: Result<ProcessedResult>)
    requires forall id :: id in results ==> results[id].sessionId in sessions
    ensures r.Ok? <==> resultId in results && sessions[results[resultId].sessionId].userId == userId
    ensures r.Ok? ==> r.value == results[resultId]
    ensures r.Err? ==> r.error.status == (if resultId !in results then 404 else 403)
  {
    if resultId !in results then Err(HttpError(NotFound, "Result not found"))
    else if sessions[results[resultId].sessionId].userId != userId then
      Err(HttpError(Forbidden, "You don't have access to this result"))
    else Ok(results[resultId])
  }

  class ReviewStore {
    var sessions: map<Id, SearchSession>
    var results: map<Id, ProcessedResult>
    var tags: seq<ReviewTag>
    var assignments: seq<TagAssignment>
    var notes: seq<Note>
    var nextId: Id

    /**
     * The store's invariant: every reference resolves, tag names are unique
     * per session ignoring case, no pair is assigned twice and every id is
     * below the next one handed out.
     */
    ghost predicate Valid()
      reads this
    {
      && (forall id :: id in results ==> results[id].sessionId in sessions)
      && UniqueTagNames(tags)
      && UniquePairs(assignments)
      && (forall a :: a in assignments ==> a.resultId in results && TagById(tags, a.tagId).Some?)
      && (forall n :: n in notes ==> n.resultId in results)
      && (forall t :: t in tags ==> t.id < nextId)
      && (forall a :: a in assignments ==> a.id < nextId)
      && (forall n :: n in notes ==> n.id < nextId)
    }

    /** A store over given sessions and results, with no tags, assignments or notes yet. */
    constructor (sessions: map<Id, SearchSession>, results: map<Id, ProcessedResult>)
      requires forall id :: id in results ==> results[id].sessionId in sessions
      ensures Valid()
      ensures this.sessions == sessions && this.results == results
      ensures tags == [] && assignments == [] && notes == []
    {
      this.sessions, this.results := sessions, results;
      tags, assignments, notes, nextId := [], [], [], 0;
    }

    /**
     * createReviewTag. Checks, in order: a caller (401), the session (404,
     * 403), a name (400), a color (400), no tag of the session with the same
     * name ignoring case (400); then creates exactly one tag.
     */
    method CreateReviewTag(user: Option<Id>, sessionId: Id, name: Option<string>, color: Option<string>,
                           storeFails: bool) returns (r: Result<ReviewTag>)
      requires Valid()
      modifies this
      ensures Valid()
      ensures sessions == old(sessions) && results == old(results)
      ensures assignments == old(assignments) && notes == old(notes)
      ensures user.None? ==> r == Err(HttpError(Unauthorized, "Unauthorized"))
      ensures user.Some? && storeFails ==> r == Err(TagFailed)
      ensures user.Some? && !storeFails && SessionAccess(user, sessions, sessionId).Err? ==>
        r == Err(SessionAccess(user, sessions, sessionId).error)
      ensures user.Some? && !storeFails && SessionAccess(user, sessions, sessionId).Ok? ==>
        if Missing(name) then r == Err(HttpError(BadRequest, "Tag name is required"))
        else if Missing(color) then r == Err(HttpError(BadRequest, "Tag color is required"))
        else if FindTagNamed(old(tags), sessionId, name.value).Some? then
          r == Err(HttpError(BadRequest, "A tag with the name \"" + name.value + "\" already exists"))
        else r.Ok?
      ensures r.Ok? ==> r.value == ReviewTag(old(nextId), sessionId, name.value, color.value)
      ensures r.Ok? ==> tags == old(tags) + [r.value] && nextId == old(nextId) + 1
      ensures r.Err? ==> tags == old(tags) && nextId == old(nextId)
    {
      if user.None? {
        return Err(HttpError(Unauthorized, "Unauthorized"));
      }
      if storeFails {
        return Err(TagFailed);
      }
      var access := SessionAccess(user, sessions, sessionId);
      if access.Err? {
        return Err(access.error);
      }
      if Missing(name) {
        return Err(HttpError(BadRequest, "Tag name is required"));
      }
      if Missing(color) {
        return Err(HttpError(BadRequest, "Tag color is required"));
      }
      var existingTag := FindTagNamed(tags, sessionId, name.value);
      if existingTag.Some? {
        return Err(HttpError(BadRequest, "A tag with the name \"" + name.value + "\" already exists"));
      }
      var tag := ReviewTag(nextId, sessionId, name.value, color.value);
      UniqueTagNamesAppend(tags, tag);
      forall a | a in assignments
        ensures TagById(tags + [tag], a.tagId).Some?
      {
        TagByIdAppend(tags, tag, a.tagId);
      }
      tags := tags + [tag];
      nextId := nextId + 1;
      r := Ok(tag);
    }

    /**
     * assignTag. After the caller (401) and the result (404, 403) checks, a
     * removal deletes the first assignment of the pair (404 when there is
     * none); an addition needs the tag (404) in the result's session (400),
     * and creates an assignment only when the pair has none.
     */
    method AssignTag(user: Option<Id>, resultId: Id, tagId: Id, remove: bool, storeFails: bool)
      returns (r: Result<string>)
      requires Valid()
      modifies this
      ensures Valid()
      ensures sessions == old(sessions) && results == old(results) && tags == old(tags) && notes == old(notes)
      ensures user.None? ==> r == Err(HttpError(Unauthorized, "Unauthorized"))
      ensures user.Some? && storeFails ==> r == Err(AssignFailed)
      ensures user.Some? && !storeFails && ResultAccess(user.value, sessions, results, resultId).Err? ==>
        r == Err(ResultAccess(user.value, sessions, results, resultId).error)
      ensures r.Err? ==> assignments == old(assignments) && nextId == old(nextId)
      ensures remove && user.Some? && !storeFails && ResultAccess(user.value, sessions, results, resultId).Ok? ==>
        var k := FindAssignment(old(assignments), resultId, tagId);
        if k.None? then r == Err(HttpError(NotFound, "Tag not assigned to this result"))
        else (r == Ok("Tag removed") && nextId == old(nextId) && assignments == RemoveAt(old(assignments), k.value))
      ensures !remove && user.Some? && !storeFails && ResultAccess(user.value, sessions, results, resultId).Ok? ==>
        var tag := TagById(tags, tagId);
        if tag.None? then r == Err(HttpError(NotFound, "Tag not found"))
        else if tag.value.sessionId != results[resultId].sessionId then
          r == Err(HttpError(BadRequest, "Tag does not belong to the same session as the result"))
        else if FindAssignment(old(assignments), resultId, tagId).Some? then
          (r == Ok("Tag already assigned") && assignments == old(assignments) && nextId == old(nextId))
        else (r == Ok("Tag assigned successfully") && nextId == old(nextId) + 1 &&
          assignments == old(assignments) + [TagAssignment(old(nextId), resultId, tagId)])
      ensures r.Ok? && remove ==> Pairs(assignments) == Pairs(old(assignments)) - {(resultId, tagId)}
      ensures r.Ok? && !remove ==> Pairs(assignments) == Pairs(old(assignments)) + {(resultId, tagId)}
    {
      if user.None? {
        return Err(HttpError(Unauthorized, "Unauthorized"));
      }
      if storeFails {
        return Err(AssignFailed);
      }
      var access := ResultAccess(user.value, sessions, results, resultId);
      if access.Err? {
        return Err(access.error);
      }
      if remove {
        r := RemoveTag(resultId, tagId);
      } else {
        r := AddTag(resultId, tagId);
      }
    }

    /** The removal branch of assignTag: deletes the pair's first assignment, 404 when there is none. */
    method RemoveTag(resultId: Id, tagId: Id) returns (r: Result<string>)
      requires Valid()
      modifies this`assignments
      ensures Valid()
      ensures var k := FindAssignment(old(assignments), resultId, tagId);
        if k.None? then r == Err(HttpError(NotFound, "Tag not assigned to this result")) && assignments == old(assignments)
        else (r == Ok("Tag removed") && assignments == RemoveAt(old(assignments), k.value))
      ensures r.Ok? ==> Pairs(assignments) == Pairs(old(assignments)) - {(resultId, tagId)}
    {
      var tagAssignment := FindAssignment(assignments, resultId, tagId);
      if tagAssignment.None? {
        return Err(HttpError(NotFound, "Tag not assigned to this result"));
      }
      var k := tagAssignment.value;
      RemoveKeepsUnique(assignments, k);
      RemoveKeepsMembers(assignments, k);
      RemoveUnlinks(assignments, resultId, tagId);
      assignments := RemoveAt(assignments, k);
      r := Ok("Tag removed");
    }

    /**
     * The addition branch of assignTag: the tag must exist (404) and belong
     * to the result's session (400); an assignment is created only when the
     * pair has none.
     */
    method AddTag(resultId: Id, tagId: Id) returns (r: Result<string>)
      requires Valid() && resultId in results
      modifies this`assignments, this`nextId
      ensures Valid()
      ensures var tag := TagById(tags, tagId);
        if tag.None? then r == Err(HttpError(NotFound, "Tag not found"))
        else if tag.value.sessionId != results[resultId].sessionId then
          r == Err(HttpError(BadRequest, "Tag does not belong to the same session as the result"))
        else if FindAssignment(old(assignments), resultId, tagId).Some? then r == Ok("Tag already assigned")
        else r == Ok("Tag assigned successfully")
      ensures r != Ok("Tag assigned successfully") ==> assignments == old(assignments) && nextId == old(nextId)
      ensures r == Ok("Tag assigned successfully") ==>
        assignments == old(assignments) + [TagAssignment(old(nextId), resultId, tagId)] && nextId == old(nextId) + 1
      ensures r.Ok? ==> Pairs(assignments) == Pairs(old(assignments)) + {(resultId, tagId)}
    {
      var tag := TagById(tags, tagId);
      if tag.None? {
        return Err(HttpError(NotFound, "Tag not found"));
      }
      if tag.value.sessionId != results[resultId].sessionId {
        return Err(HttpError(BadRequest, "Tag does not belong to the same session as the result"));
      }
      var existingAssignment := FindAssignment(assignments, resultId, tagId);
      if existingAssignment.Some? {
        PairsHas(assignments, resultId, tagId);
        return Ok("Tag already assigned");
      }
      var assignment := TagAssignment(nextId, resultId, tagId);
      AddAssignment(assignments, assignment);
      assignments := assignments + [assignment];
      nextId := nextId + 1;
      r := Ok("Tag assigned successfully");
    }

    /**
     * createNote. After the caller check (401), blank content is refused
     * (400) before any lookup; then the result checks (404, 403); then
     * exactly one note is created.
     */
    method CreateNote(user: Option<Id>, resultId: Id, content: Option<string>, now: int, storeFails: bool)
      returns (r: Result<Note>)
      requires Valid()
      modifies this
      ensures Valid()
      ensures sessions == old(sessions) && results == old(results) && tags == old(tags)
      ensures assignments == old(assignments)
      ensures user.None? ==> r == Err(HttpError(Unauthorized, "Unauthorized"))
      ensures user.Some? && Missing(content) ==> r == Err(HttpError(BadRequest, "Note content is required"))
      ensures user.Some? && !Missing(content) && storeFails ==> r == Err(NoteFailed)
      ensures user.Some? && !Missing(content) && !storeFails && ResultAccess(user.value, sessions, results, resultId).Err? ==>
        r == Err(ResultAccess(user.value, sessions, results, resultId).error)
      ensures r.Ok? <==>
        user.Some? && !Missing(content) && !storeFails && ResultAccess(user.value, sessions, results, resultId).Ok?
      ensures r.Ok? ==> r.value == Note(old(nextId), resultId, content.value, now)
      ensures r.Ok? ==> notes == old(notes) + [r.value] && nextId == old(nextId) + 1
      ensures r.Err? ==> notes == old(notes) && nextId == old(nextId)
    {
      if user.None? {
        return Err(HttpError(Unauthorized, "Unauthorized"));
      }
      if Missing(content) {
        return Err(HttpError(BadRequest, "Note content is required"));
      }
      if storeFails {
        return Err(NoteFailed);
      }
      var access := ResultAccess(user.value, sessions, results, resultId);
      if access.Err? {
        return Err(access.error);
      }
      var note := Note(nextId, resultId, content.value, now);
      notes := notes + [note];
      nextId := nextId + 1;
      r := Ok(note);
    }
  }
}
