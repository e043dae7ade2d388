/**
 * getReportData: the counters of a session's report (queries, raw and
 * processed results, tagged and untagged results, duplicate relationships),
 * the session's queries, the number of assignments of each of its tags, and
 * the histogram of the file types of its processed results, filled one
 * result at a time.
 */
module Report {
  import opened Wrappers
  import opened Entities
  import opened Lists

  datatype TagCount = TagCount(id: Id, name: string, color: string, count: nat)

  /** One entry of the file-type histogram. */
  datatype FileTypeCount = FileTypeCount(fileType: string, count: nat)

  datatype ReportSummary = ReportSummary(
    name: string, description: Option<string>, queriesCount: nat, rawResultsCount: nat,
    processedResultsCount: nat, taggedResultsCount: nat, untaggedResultsCount: int, duplicatesCount: nat)

  /**
   * The report. `queries` is the session's `searchQueries`, keyed by id: the
   * store returns them in an order the source leaves unspecified.
   */
  datatype ReportData = ReportData(
    summary: ReportSummary, queries: map<Id, SearchQuery>, tags: seq<TagCount>, fileTypes: seq<FileTypeCount>)

  const ReportFailed := HttpError(InternalError, "Failed to fetch report data")

  /** The processed results of a session, in store order. */
  function SessionResults(db: Database, sessionId: Id): (rs: seq<ProcessedResult>)
    ensures forall p :: p in rs <==> p in db.processed && p.sessionId == sessionId
  {
    Filter(db.processed, (p: ProcessedResult) => p.sessionId == sessionId)
  }

  /** The ids of the session's search queries. */
  function SessionQueryIds(db: Database, sessionId: Id): set<Id>
  {
    set id | id in db.queries && db.queries[id].sessionId == sessionId
  }

  /** The session's search queries (`include: { searchQueries: true }`). */
  function SessionQueries(db: Database, sessionId: Id): (qs: map<Id, SearchQuery>)
    ensures qs.Keys == SessionQueryIds(db, sessionId)
    ensures forall id :: id in qs ==> qs[id] == db.queries[id] && qs[id].sessionId == sessionId
    ensures forall id :: id in db.queries && db.queries[id].sessionId == sessionId ==> id in qs
  {
    map id | id in SessionQueryIds(db, sessionId) :: db.queries[id]
  }

  /** The raw results whose query belongs to the session. */
  function SessionRawIds(db: Database, sessionId: Id): set<Id>
  {
    set id | id in db.raw && db.raw[id].queryId in SessionQueryIds(db, sessionId)
  }

  /** Some processed result of the session has id `id`. */
  predicate InSession(db: Database, id: Id, sessionId: Id)
  {
    exists i :: 0 <= i < |db.processed| && db.processed[i].id == id && db.processed[i].sessionId == sessionId
  }

  /** The duplicate relationships whose primary or duplicate result belongs to the session. */
  function SessionDuplicates(db: Database, sessionId: Id): (ds: seq<DuplicateRelationship>)
    ensures forall d :: d in ds <==>
      d in db.relationships && (InSession(db, d.primaryResultId, sessionId) || InSession(db, d.duplicateResultId, sessionId))
  {
    Filter(db.relationships, (d: DuplicateRelationship) =>
      InSession(db, d.primaryResultId, sessionId) || InSession(db, d.duplicateResultId, sessionId))
  }

  /** The assignments of one tag. */
  function AssignmentsOfTag(db: Database, tagId: Id): (as_: seq<TagAssignment>)
    ensures forall a :: a in as_ <==> a in db.assignments && a.tagId == tagId
    ensures forall a :: multiset(as_)[a] == if a.tagId == tagId then multiset(db.assignments)[a] else 0
  {
    var ofTag := (a: TagAssignment) => a.tagId == tagId;
    FilterMultiplicity(db.assignments, ofTag);
    Filter(db.assignments, ofTag)
  }

  /** tagCounts: each tag of the session, in store order, with the number of its assignments. */
  function TagCounts(db: Database, sessionId: Id): (counts: seq<TagCount>)
  {
    var tags := Filter(db.tags, (t: ReviewTag) => t.sessionId == sessionId);
    seq(|tags|, i requires 0 <= i < |tags| =>
      TagCount(tags[i].id, tags[i].name, tags[i].color, |AssignmentsOfTag(db, tags[i].id)|))
  }

  /** The histogram key of a result: its file type, or `unknown` when that is empty. */
  function Kind(p: ProcessedResult): string
  {
    if p.metadata.fileType == "" then "unknown" else p.metadata.fileType
  }

  function Kinds(results: seq<ProcessedResult>): (kinds: seq<string>)
    ensures |kinds| == |results|
  {
    seq(|results|, i requires 0 <= i < |results| => Kind(results[i]))
  }

  /** The entries for `keys`, each with the number of times it occurs among `kinds`. */
  function Histogram(keys: seq<string>, kinds: seq<string>): (entries: seq<FileTypeCount>)
    ensures |entries| == |keys|
  {
    seq(|keys|, j requires 0 <= j < |keys| => FileTypeCount(keys[j], multiset(kinds)[keys[j]]))
  }

  /** The sum of the counts of some entries. */
  function Total(entries: seq<FileTypeCount>): nat
  {
    if entries == [] then 0 else Total(entries[..|entries| - 1]) + entries[|entries| - 1].count
  }

  /**
   * The `forEach` that fills `fileTypeCounts`, then `Object.entries`: the
   * file types in the order they first occur, each with its number of
   * results.
   */
  method FileTypeCounts(results: seq<ProcessedResult>) returns (entries: seq<FileTypeCount>)
    ensures entries == Histogram(Dedupe(Kinds(results)), Kinds(results))
  {
    var kinds := Kinds(results);
    var counts: map<string, nat> := map[];
    var keys: seq<string> := [];
    for i := 0 to |kinds|
      invariant keys == Dedupe(kinds[..i])
      invariant forall k :: k in counts <==> k in keys
      invariant forall k :: k in counts ==> counts[k] == multiset(kinds[..i])[k]
    {
      var fileType := kinds[i];
      assert kinds[..i + 1] == kinds[..i] + [fileType];
      CountStep(kinds[..i], fileType, keys, counts);
      if fileType in counts {
        counts := counts[fileType := counts[fileType] + 1];
      } else {
        counts := counts[fileType := 1];
        keys := keys + [fileType];
      }
    }
    assert kinds[..|kinds|] == kinds;
    entries := Entries(keys, counts);
    EntriesAreHistogram(keys, counts, kinds);
  }

  /** `Object.entries` of the dictionary, in the order its keys were added. */
  function Entries(keys: seq<string>, counts: map<string, nat>): (entries: seq<FileTypeCount>)
    requires forall k :: k in keys ==> k in counts
    ensures |entries| == |keys|
  {
    seq(|keys|, j requires 0 <= j < |keys| => FileTypeCount(keys[j], counts[keys[j]]))
  }

  /** A dictionary holding the number of occurrences of each key yields the histogram. */
  lemma EntriesAreHistogram(keys: seq<string>, counts: map<string, nat>, kinds: seq<string>)
    requires forall k :: k in counts <==> k in keys
    requires forall k :: k in counts ==> counts[k] == multiset(kinds)[k]
    ensures Entries(keys, counts) == Histogram(keys, kinds)
  {
  }

  /** One step of the counting loop: the dictionary and its key order take in one more value. */
  lemma CountStep(done: seq<string>, x: string, keys: seq<string>, counts: map<string, nat>)
    requires keys == Dedupe(done)
    requires forall k :: k in counts <==> k in keys
    requires forall k :: k in counts ==> counts[k] == multiset(done)[k]
    ensures var counts' := if x in counts then counts[x := counts[x] + 1] else counts[x := 1];
      var keys' := if x in counts then keys else keys + [x];
      && keys' == Dedupe(done + [x])
      && (forall k :: k in counts' <==> k in keys')
      && (forall k :: k in counts' ==> counts'[k] == multiset(done + [x])[k])
  {
    assert (done + [x])[..|done|] == done;
  }

  /** The counts of the histogram add up to the number of results. */
  lemma {:induction false} HistogramTotal(kinds: seq<string>)
    ensures Total(Histogram(Dedupe(kinds), kinds)) == |kinds|
  {
    if kinds != [] {
      var s, x := kinds[..|kinds| - 1], kinds[|kinds| - 1];
      assert kinds == s + [x];
      var d := Dedupe(s);
      HistogramTotal(s);
      HistogramBump(d, s, x);
      if x !in d {
        var e := FileTypeCount(x, multiset(kinds)[x]);
        assert Histogram(d + [x], kinds) == Histogram(d, kinds) + [e];
        TotalAppend(Histogram(d, kinds), e);
        assert multiset(s)[x] == 0;
      }
    }
  }

  lemma TotalAppend(entries: seq<FileTypeCount>, e: FileTypeCount)
    ensures Total(entries + [e]) == Total(entries) + e.count
  {
    assert (entries + [e])[..|entries|] == entries;
  }

  /** One more result of kind `x` adds one to the total over keys holding `x` once, nothing otherwise. */
  lemma {:induction false} HistogramBump(keys: seq<string>, s: seq<string>, x: string)
    requires NoDuplicates(keys)
    ensures Total(Histogram(keys, s + [x])) == Total(Histogram(keys, s)) + (if x in keys then 1 else 0)
  {
    if keys != [] {
      var init, last := keys[..|keys| - 1], keys[|keys| - 1];
      assert keys == init + [last];
      HistogramBump(init, s, x);
      var before := FileTypeCount(last, multiset(s)[last]);
      var after := FileTypeCount(last, multiset(s + [x])[last]);
      assert Histogram(keys, s) == Histogram(init, s) + [before];
      assert Histogram(keys, s + [x]) == Histogram(init, s + [x]) + [after];
      TotalAppend(Histogram(init, s), before);
      TotalAppend(Histogram(init, s + [x]), after);
      assert last !in init;
    }
  }

  /** No two entries of the histogram are for the same file type. */
  lemma HistogramDistinct(results: seq<ProcessedResult>)
    ensures var entries := Histogram(Dedupe(Kinds(results)), Kinds(results));
      forall i, j :: 0 <= i < j < |entries| ==> entries[i].fileType != entries[j].fileType
  {
    var keys := Dedupe(Kinds(results));
    assert NoDuplicates(keys);
  }

  /** Every result's file type has an entry. */
  lemma HistogramCoversResults(results: seq<ProcessedResult>)
    ensures var entries := Histogram(Dedupe(Kinds(results)), Kinds(results));
      forall p :: p in results ==> exists e :: e in entries && e.fileType == Kind(p)
  {
    var kinds := Kinds(results);
    var keys := Dedupe(kinds);
    var entries := Histogram(keys, kinds);
    forall p | p in results
      ensures exists e :: e in entries && e.fileType == Kind(p)
    {
      var i :| 0 <= i < |results| && results[i] == p;
      assert kinds[i] == Kind(p) && kinds[i] in kinds;
      assert Kind(p) in keys;
      var j :| 0 <= j < |keys| && keys[j] == Kind(p);
      assert entries[j] in entries && entries[j].fileType == Kind(p);
    }
  }

  /** Each entry counts the results of its file type. */
  lemma HistogramCountsResults(results: seq<ProcessedResult>)
    ensures var entries := Histogram(Dedupe(Kinds(results)), Kinds(results));
      forall i :: 0 <= i < |entries| ==>
        entries[i].count == |Filter(results, (p: ProcessedResult) => Kind(p) == entries[i].fileType)|
  {
    var entries := Histogram(Dedupe(Kinds(results)), Kinds(results));
    forall i | 0 <= i < |entries|
      ensures entries[i].count == |Filter(results, (p: ProcessedResult) => Kind(p) == entries[i].fileType)|
    {
      KindCount(results, entries[i].fileType);
    }
  }

  /** The number of results of one kind is the multiplicity of that kind. */
  lemma {:induction false} KindCount(results: seq<ProcessedResult>, k: string)
    ensures multiset(Kinds(results))[k] == |Filter(results, (p: ProcessedResult) => Kind(p) == k)|
  {
    if results != [] {
      KindCount(results[1..], k);
      assert Kinds(results) == [Kind(results[0])] + Kinds(results[1..]);
    }
  }

  /** Of the session's results, those without a tag. */
  lemma UntaggedCount(db: Database, sessionId: Id)
    ensures var rs := SessionResults(db, sessionId);
      |rs| - |Filter(rs, (p: ProcessedResult) => IsTagged(db, p.id))| ==
      |Filter(rs, (p: ProcessedResult) => !IsTagged(db, p.id))|
  {
    FilterComplementCount(SessionResults(db, sessionId), (p: ProcessedResult) => IsTagged(db, p.id),
      (p: ProcessedResult) => !IsTagged(db, p.id));
  }

  /**
   * getReportData. `storeFails` stands for a failure of a store read inside
   * the `try`; the first of them is the session lookup, so a failure is a
   * 500 before the 404 and 403 checks, while the 401 check comes first.
   */
  method GetReportData(user: Option<Id>, db: Database, sessionId: Id, storeFails: bool) returns (r: Result<ReportData>)
    ensures user.None? ==> r == Err(HttpError(Unauthorized, "Unauthorized"))
    ensures user.Some? && storeFails ==> r == Err(ReportFailed)
    ensures !storeFails && SessionAccess(user, db.sessions, sessionId).Err? ==>
      r == Err(SessionAccess(user, db.sessions, sessionId).error)
    ensures r.Ok? <==> SessionAccess(user, db.sessions, sessionId).Ok? && !storeFails
    ensures r.Ok? ==> r.value.queries == SessionQueries(db, sessionId) && r.value.summary.queriesCount == |r.value.queries|
    ensures r.Ok? ==>
      var session := db.sessions[sessionId];
      var results := SessionResults(db, sessionId);
      var tagged := Filter(results, (p: ProcessedResult) => IsTagged(db, p.id));
      && r.value.summary == ReportSummary(
           session.name, session.description, |SessionQueryIds(db, sessionId)|, |SessionRawIds(db, sessionId)|,
           |results|, |tagged|, |results| - |tagged|, |SessionDuplicates(db, sessionId)|)
      && r.value.tags == TagCounts(db, sessionId)
      && r.value.fileTypes == Histogram(Dedupe(Kinds(results)), Kinds(results))
  {
    if user.None? {
      return Err(HttpError(Unauthorized, "Unauthorized"));
    }
    if storeFails {
      return Err(ReportFailed);
    }
    var access := SessionAccess(user, db.sessions, sessionId);
    if access.Err? {
      return Err(access.error);
    }
    var session := access.value;
    var queries := SessionQueries(db, sessionId);
    var results := SessionResults(db, sessionId);
    var processedCount := |results|;
    var taggedCount := |Filter(results, (p: ProcessedResult) => IsTagged(db, p.id))|;
    var fileTypes := FileTypeCounts(results);
    var summary := ReportSummary(
      session.name, session.description, |queries|, |SessionRawIds(db, sessionId)|,
      processedCount, taggedCount, processedCount - taggedCount, |SessionDuplicates(db, sessionId)|);
    return Ok(ReportData(summary, queries, TagCounts(db, sessionId), fileTypes));
  }
}
