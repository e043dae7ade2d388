/**
 * exportResults: the processed results of a session (optionally only those
 * carrying one tag) shaped into one row each, with the search query, rank
 * and engine of the raw result, the names of the reviewTags tags and the
 * latest note, then written as CSV or handed to a JSON printer.
 */
module Export {
  import opened Wrappers
  import opened Text
  import opened Entities
  import opened Sorting
  import opened Lists
  import Csv

  /** One exported row, its fields in the order of the export object's keys. */
  datatype ExportRow = ExportRow(
    title: string, url: string, snippet: string, query: Option<string>, tags: string,
    notes: string, domain: string, fileType: string, source: string, rank: int)

  /** What the action returns: the format, the download's file name and its content. */
  datatype ExportFile = ExportFile(format: string, filename: string, content: string)

  /** The keys of an export row, in order: the header row of the CSV file. */
  const Headers: seq<string> := ["title", "url", "snippet", "query", "tags", "notes", "domain", "fileType", "source", "rank"]

  /** The `where` of the results query: the session's results, and with a tag id only those carrying that tag. */
  function Selected(db: Database, sessionId: Id, tagId: Option<Id>): (rs: seq<ProcessedResult>)
    ensures forall p :: p in rs <==>
      p in db.processed && p.sessionId == sessionId && (tagId.Some? ==> HasTag(db, p.id, tagId.value))
  {
    Filter(db.processed, (p: ProcessedResult) => p.sessionId == sessionId && (tagId.None? || HasTag(db, p.id, tagId.value)))
  }

  /** The names of the tags of some assignments, in assignment order. */
  function TagNames(tags: seq<ReviewTag>, assignments: seq<TagAssignment>): (names: seq<string>)
    requires forall a :: a in assignments ==> TagById(tags, a.tagId).Some?
    ensures |names| == |assignments|
    ensures forall i :: 0 <= i < |assignments| ==>
      exists t :: t in tags && t.id == assignments[i].tagId && names[i] == t.name
  {
    if assignments == [] then []
    else [TagById(tags, assignments[0].tagId).value.name] + TagNames(tags, assignments[1..])
  }

  /** The key the note comparator reads: the creation time. */
  function NoteTime(n: Note): SortKey
  {
    IntKey(n.createdAt)
  }

  /**
   * The content of the first note after sorting the notes newest first, or
   * the empty string when there are none.
   */
  function LatestNote(notes: seq<Note>): (content: string)
    ensures notes == [] ==> content == ""
  {
    var sorted := SortBy(notes, NoteTime, true);
    if sorted == [] then "" else sorted[0].content
  }

  /** The latest note is the content of a note no other note is newer than. */
  lemma LatestNoteIsNewest(notes: seq<Note>)
    requires notes != []
    ensures exists i ::
      0 <= i < |notes| && LatestNote(notes) == notes[i].content &&
      (forall j :: 0 <= j < |notes| ==> notes[j].createdAt <= notes[i].createdAt)
  {
    var sorted := SortBy(notes, NoteTime, true);
    assert multiset(sorted) == multiset(notes);
    assert |sorted| == |notes| by {
      assert |multiset(sorted)| == |multiset(notes)|;
    }
    var first := sorted[0];
    assert first in multiset(notes);
    var i :| 0 <= i < |notes| && notes[i] == first;
    forall j | 0 <= j < |notes|
      ensures notes[j].createdAt <= first.createdAt
    {
      assert notes[j] in multiset(sorted);
      var k :| 0 <= k < |sorted| && sorted[k] == notes[j];
      if k > 0 {
        assert InOrder(NoteTime(sorted[0]), NoteTime(sorted[k]), true);
      }
    }
  }

  /** The `reviewTags` of a result: its assignments, in store order. */
  function AssignmentsOf(db: Database, resultId: Id): (reviewTags: seq<TagAssignment>)
    ensures forall a :: a in reviewTags <==> a in db.assignments && a.resultId == resultId
    ensures forall a :: multiset(reviewTags)[a] == if a.resultId == resultId then multiset(db.assignments)[a] else 0
  {
    var ofResult := (a: TagAssignment) => a.resultId == resultId;
    FilterMultiplicity(db.assignments, ofResult);
    Filter(db.assignments, ofResult)
  }

  /** The `notes` of a result, in store order. */
  function NotesOf(db: Database, resultId: Id): (notes: seq<Note>)
    ensures forall n :: n in notes <==> n in db.notes && n.resultId == resultId
  {
    Filter(db.notes, (n: Note) => n.resultId == resultId)
  }

  /** The `tags` field of a result's row: the names of its tags joined by ", ". */
  function RowTags(db: Database, resultId: Id): string
    requires ForeignKeysHold(db)
  {
    Join(TagNames(db.tags, AssignmentsOf(db, resultId)), ", ")
  }

  /** The export row of one result: snippet, domain, file type and source are already strings. */
  function FormatRow(db: Database, p: ProcessedResult): (row: ExportRow)
    requires ForeignKeysHold(db) && p in db.processed
    ensures row.title == p.title && row.url == p.url && row.snippet == p.snippet
    ensures row.domain == p.metadata.domain && row.fileType == p.metadata.fileType
    ensures row.source == db.raw[p.rawResultId].searchEngine && row.rank == db.raw[p.rawResultId].rank
    ensures row.query == db.queries[db.raw[p.rawResultId].queryId].query
    ensures AssignmentsOf(db, p.id) == [] ==> row.tags == ""
    ensures NotesOf(db, p.id) == [] ==> row.notes == ""
  {
    var raw := db.raw[p.rawResultId];
    ExportRow(
      p.title, p.url, p.snippet, db.queries[raw.queryId].query,
      RowTags(db, p.id), LatestNote(NotesOf(db, p.id)),
      p.metadata.domain, p.metadata.fileType, raw.searchEngine, raw.rank)
  }

  /** `results.map(formatRow)`. */
  function Rows(db: Database, results: seq<ProcessedResult>): (rows: seq<ExportRow>)
    requires ForeignKeysHold(db) && forall p :: p in results ==> p in db.processed
  {
    seq(|results|, i requires 0 <= i < |results| => FormatRow(db, results[i]))
  }

  /** A row's values under the headers, in header order; only the query may be null. */
  function Fields(row: ExportRow): (values: seq<Option<string>>)
    ensures |values| == |Headers|
  {
    [Some(row.title), Some(row.url), Some(row.snippet), row.query, Some(row.tags), Some(row.notes),
     Some(row.domain), Some(row.fileType), Some(row.source), Some(IntToString(row.rank))]
  }

  /** An export row as the object the CSV writer reads: each header with its value. */
  function ToRecord(row: ExportRow): (record: Csv.Record)
  {
    Csv.Zip(Headers, Fields(row))
  }

  function Records(rows: seq<ExportRow>): seq<Csv.Record>
  {
    seq(|rows|, i requires 0 <= i < |rows| => ToRecord(rows[i]))
  }

  /** The text a row prints under the headers, in header order; a null query prints as "". */
  function Printed(row: ExportRow): (values: seq<string>)
  {
    var fields := Fields(row);
    seq(|fields|, k requires 0 <= k < |fields| => Csv.ValueText(fields[k]))
  }

  /** `new Date().toISOString().slice(0, 10)`: the date part of the current time. */
  function DatePart(isoNow: string): (date: string)
    ensures |date| == if |isoNow| < 10 then |isoNow| else 10
  {
    if |isoNow| < 10 then isoNow else isoNow[..10]
  }

  function FileName(sessionName: string, isoNow: string, extension: string): string
  {
    "thesis-grey-export-" + sessionName + "-" + DatePart(isoNow) + extension
  }

  /** The `format` argument after its default `'csv'`; `None` for a given `null`. */
  function FormatOf(format: Arg<string>): (f: Option<string>)
  {
    WithDefault(format, "csv")
  }

  const ExportFailed := HttpError(InternalError, "Failed to export results")

  /**
   * exportResults. `storeFails` stands for a failure of a store read inside
   * the `try`, the first being the session lookup: after the 401 check it is
   * a 500 before the 404 and 403 checks. A `null` format fails at
   * `format.toLowerCase()` and is a 500 as well. `isoNow` stands for the
   * current time as an ISO string and `stringify` for
   * `JSON.stringify(rows, null, 2)`.
   */
  function ExportResults(user: Option<Id>, db: Database, sessionId: Id, format: Arg<string>, tagId: Option<Id>,
                         storeFails: bool, isoNow: string, stringify: seq<ExportRow> -> string): (r: Result<ExportFile>)
    requires ForeignKeysHold(db)
    ensures user.None? ==> r == Err(HttpError(Unauthorized, "Unauthorized"))
    ensures user.Some? && storeFails ==> r == Err(ExportFailed)
    ensures !storeFails && SessionAccess(user, db.sessions, sessionId).Err? ==>
      r == Err(SessionAccess(user, db.sessions, sessionId).error)
    ensures !storeFails && SessionAccess(user, db.sessions, sessionId).Ok? && format == Given(None) ==> r == Err(ExportFailed)
    ensures r.Ok? ==> FormatOf(format).Some? && r.value.format == ToLower(FormatOf(format).value)
    ensures r.Ok? ==>
      var name := db.sessions[sessionId].name;
      var rows := Rows(db, Selected(db, sessionId, tagId));
      if r.value.format == "csv" then r.value == ExportFile("csv", FileName(name, isoNow, ".csv"), Csv.GenerateCsv(Records(rows)))
      else r.value == ExportFile("json", FileName(name, isoNow, ".json"), stringify(rows))
    ensures r.Ok? <==>
      && SessionAccess(user, db.sessions, sessionId).Ok? && !storeFails
      && FormatOf(format).Some? && ToLower(FormatOf(format).value) in {"csv", "json"}
    ensures
      && SessionAccess(user, db.sessions, sessionId).Ok? && !storeFails
      && FormatOf(format).Some? && ToLower(FormatOf(format).value) !in {"csv", "json"} ==>
      r == Err(HttpError(BadRequest, "Unsupported export format: " + FormatOf(format).value))
  {
    if user.None? then Err(HttpError(Unauthorized, "Unauthorized"))
    else if storeFails then Err(ExportFailed)
    else match SessionAccess(user, db.sessions, sessionId)
    case Err(e) => Err(e)
    case Ok(session) =>
      var selected := Selected(db, sessionId, tagId);
      var rows := Rows(db, selected);
      match FormatOf(format)
      case None => Err(ExportFailed)
      case Some(f) =>
        var kind := ToLower(f);
        if kind == "csv" then
          Ok(ExportFile("csv", FileName(session.name, isoNow, ".csv"), Csv.GenerateCsv(Records(rows))))
        else if kind == "json" then
          Ok(ExportFile("json", FileName(session.name, isoNow, ".json"), stringify(rows)))
        else Err(HttpError(BadRequest, "Unsupported export format: " + f))
  }

  /** Only an omitted format defaults to CSV; an explicit `null` is refused with a 500. */
  lemma NullFormatIsNotCsv(user: Option<Id>, db: Database, sessionId: Id, tagId: Option<Id>, isoNow: string,
                           stringify: seq<ExportRow> -> string)
    requires ForeignKeysHold(db) && SessionAccess(user, db.sessions, sessionId).Ok?
    ensures ExportResults(user, db, sessionId, Undefined, tagId, false, isoNow, stringify).Ok?
    ensures ExportResults(user, db, sessionId, Undefined, tagId, false, isoNow, stringify).value.format == "csv"
    ensures ExportResults(user, db, sessionId, Given(None), tagId, false, isoNow, stringify) == Err(ExportFailed)
  {
    assert ToLower("csv") == "csv";
  }

  /** No header needs quoting, so the header row reads back as the headers. */
  lemma HeadersPlain()
    ensures forall k :: 0 <= k < |Headers| ==> !Csv.NeedsQuoting(Headers[k])
  {
  }

  /** No two headers are equal. */
  lemma HeadersDistinct()
    ensures forall i, j :: 0 <= i < j < |Headers| ==> Headers[i] != Headers[j]
  {
  }

  /** Under each header, a row's record holds the value the row prints there. */
  lemma RecordCells(row: ExportRow)
    ensures Csv.RowValues(ToRecord(row), Headers) == Printed(row)
  {
    HeadersDistinct();
    Csv.ZipCells(Headers, Fields(row));
  }

  /** The value rows of the records are the printed rows. */
  lemma RecordsTable(rows: seq<ExportRow>)
    ensures Csv.Table(Records(rows), Headers) == seq(|rows|, i requires 0 <= i < |rows| => Printed(rows[i]))
  {
    var table := Csv.Table(Records(rows), Headers);
    forall i | 0 <= i < |rows|
      ensures table[i] == Printed(rows[i])
    {
      RecordCells(rows[i]);
    }
  }

  /** Every record's keys are the headers, none of which needs quoting. */
  lemma RecordKeysPlain(row: ExportRow)
    ensures var record := ToRecord(row);
      record != [] && Csv.Keys(record) == Headers && forall i :: 0 <= i < |record| ==> !Csv.NeedsQuoting(record[i].0)
  {
    Csv.ZipKeys(Headers, Fields(row));
    HeadersPlain();
  }

  /**
   * A CSV export reads back as the header row, then for each exported
   * result the values of its row in header order; no results, no text.
   */
  lemma CsvExportReadsBack(rows: seq<ExportRow>)
    ensures Csv.GenerateCsv(Records(rows)) == "" <==> rows == []
    ensures rows != [] ==>
      Csv.ReadCsv(Csv.GenerateCsv(Records(rows))) == [Headers] + seq(|rows|, i requires 0 <= i < |rows| => Printed(rows[i]))
  {
    var records := Records(rows);
    if rows != [] {
      RecordKeysPlain(rows[0]);
      Csv.GenerateCsvRoundTrip(records);
      RecordsTable(rows);
    }
  }
}
