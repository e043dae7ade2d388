# Thesis Grey — verified model of the review rules

Thesis Grey is a web application for grey-literature reviews. A researcher defines
search sessions and queries, runs them against search engines, processes the raw hits
into de-duplicated results, tags and annotates them, and exports a report.

This project models the deterministic rules under that workflow in Dafny and proves
what they promise. On the server:

- the result-processing pipeline: URL normalisation, file-type and domain
  classification, duplicate linking, and the batch loop;
- the CSV/JSON export and the report counters;
- the review-tag store: creating tags, assigning and removing them, adding notes;
- the paginated result query;
- the search-strategy actions and the profile and password actions.

On the client:

- the pagination bar and the review page's state;
- the two results-manager filter/sort pipelines and the filter panel;
- the search-engine picker, the navigation tabs, and the derived values of the
  reporting page.

The database becomes in-memory stores:

- a `class` whose `seq`/`map` fields the actions update, with a counter handing out fresh ids;
- or a `Database` value for read-only queries.

Client component state becomes a `class` whose fields the handlers reassign.
Foreign functions become parameters. These are URL parsing (`string -> Option<Url>`),
date parsing, password verification and hashing, `JSON.stringify`, and the clock.
The processing pipeline reads the clock once per result it creates:
`clock(i)` is the time read while creating the i-th result of a batch.
An argument that JavaScript may omit or pass as `null` is an `Arg`:
`Undefined`, or `Given` with an `Option` where `None` is `null`.
A default parameter replaces only `Undefined`.
A store failure that the source catches becomes a boolean parameter. For
each action it stands for one store call, named in the action's doc comment:

- the first read inside the `try` for the review actions and queries, the
  report, the export and `changePassword`;
- the final write for the search-strategy actions and `updateUserProfile`;
- in the processing pipeline, `readFails` for the session lookup or the raw
  `findMany`, and a `failAt` index for the create of the k-th result.

Where that first read is the session lookup, its failure is a 500 after the
401 check and before the 404 and 403 checks.

Modules, one per source file plus shared ones:

| module | models |
|---|---|
| `Wrappers` | `Option`, `HttpError` and the action outcome `Result` |
| `Text` | ASCII `trim`, `toLowerCase`, `includes`, `startsWith`, lexicographic order, number formatting |
| `Lists` | `filter`, the add-or-remove toggle, `[...new Set(xs)]` |
| `Sorting` | a stable sort by a key in either direction |
| `Entities` | the stored records and the session ownership check |
| `UrlNormalizer` | `normalizeUrl`, `extractDomain`, `extractFileType` |
| `ResultsPipeline` | `createProcessedResult`, `findDuplicates`, `processSessionResults` |
| `Csv` | `generateCSV`, plus a reader used to prove what it writes |
| `Export` | `exportResults` |
| `Report` | `getReportData` |
| `ReviewActions` | `createReviewTag`, `assignTag`, `createNote` |
| `ReviewQueries` | `getReviewTags`, `getResultsWithTags` |
| `SearchStrategy` | `createSearchSession`, `createSearchQuery`, `updateSearchQuery` |
| `Auth` | `updateUserProfile`, `changePassword`, `isValidEmail` |
| `Pagination` | the `Pagination` component |
| `ResultReview` | the `useResultReview` hook |
| `ResultsFiltering` | the `useResultsFiltering` hook |
| `ResultsManagerView` | the `useResultsManager` hook |
| `ResultsFilter` | the `ResultsFilter` component |
| `EngineSelector` | the `SearchEngineSelector` component |
| `MainLayout` | the `MainLayout` component |
| `ReportingPage` | the `ReportingPage` component |

## Model

| member | source | states |
|---|---|---|
| UrlNormalizer.NormalizeUrl | src/server/resultsManager/actions.js:167-175 | the normalised URL is lower case and never longer than the input |
| UrlNormalizer.StripScheme | src/server/resultsManager/actions.js:170-171 | removes a suffix-preserving prefix: the result is a tail of its input |
| UrlNormalizer.StripWww | src/server/resultsManager/actions.js:172 | the result is a tail of its input |
| UrlNormalizer.StripTrailingSlash | src/server/resultsManager/actions.js:173 | the result is a head of its input |
| UrlNormalizer.StripSchemeKeepsLength | src/server/resultsManager/actions.js:170-171 | the scheme strip changes nothing exactly when no `http://`/`https://` leads |
| UrlNormalizer.StripWwwKeepsLength | src/server/resultsManager/actions.js:172 | the `www.` strip changes nothing exactly when no `www.` leads |
| UrlNormalizer.StripTrailingSlashKeepsLength | src/server/resultsManager/actions.js:173 | the slash strip changes nothing exactly when no `/` ends the string |
| UrlNormalizer.NormalizeUnchangedPrefix | src/server/resultsManager/actions.js:167-175 | on trimmed lower-case text with no scheme or `www.`, normalising only drops a trailing slash |
| UrlNormalizer.NormalizeFixpoint | src/server/resultsManager/actions.js:167-175 | a URL is a fixed point of normalisation iff it is canonical: trimmed, lower case, no scheme, no `www.`, no trailing `/` |
| UrlNormalizer.NormalizeIdempotentIff | src/server/resultsManager/actions.js:170-173 | normalising twice equals normalising once iff the first result is canonical |
| UrlNormalizer.NormalizeNotIdempotent | src/server/resultsManager/actions.js:170-173 | for a canonical host `h`, `h//` normalises to `h/` and then to `h`, so normalisation is not idempotent |
| UrlNormalizer.ExtractFileType | src/server/resultsManager/actions.js:146-162 | the type is a document type, `html` or `unknown`; `unknown` iff the URL does not parse; a document type is the extension after the path's last `.`, otherwise `html` |
| UrlNormalizer.ExtractDomain | src/server/resultsManager/actions.js:134-141 | the host name of a parsed URL, `""` when parsing fails |
| ResultsPipeline.SourceUrlFunctions | src/server/resultsManager/actions.js:81-90 | the pipeline's URL functions are `normalizeUrl`, `extractDomain` and `extractFileType` |
| ResultsPipeline.ProcessedFromSource | src/server/resultsManager/actions.js:74-95 | a processed result copies title, snippet, engine and rank, links raw result and session, stores the normalised URL, a classifier file type (`unknown` iff unparsable) and `""` as domain on a parse failure |
| ResultsPipeline.Link | src/server/resultsManager/actions.js:112-121 | a relationship has primary = smaller id, duplicate = larger id, type `url_match` |
| ResultsPipeline.MatchingMembers | src/server/resultsManager/actions.js:102-110 | a stored result matches iff its URL equals the re-normalised new URL and its id differs; the lookup is not scoped to the session |
| ResultsPipeline.LinksToAt | src/server/resultsManager/actions.js:111-126 | one relationship per match, in store order, each linking the match with the new result |
| ResultsPipeline.ResultStore.constructor | src/server/resultsManager/actions.js:6-69 | the stores start empty, with the source's URL functions |
| ResultsPipeline.ResultStore.CreateProcessedResult | src/server/resultsManager/actions.js:74-95 | appends exactly the processed result built from the raw result under a fresh id; relationships unchanged |
| ResultsPipeline.ResultStore.FindDuplicates | src/server/resultsManager/actions.js:100-129 | appends and returns one relationship per matching stored result, nothing else changes |
| ResultsPipeline.ResultStore.ProcessOne | src/server/resultsManager/actions.js:42-54 | one loop step: creates the result, then links it with every earlier match including those of the same batch |
| ResultsPipeline.ResultStore.ProcessBatch | src/server/resultsManager/actions.js:42-58 | after the loop the store holds the created results in batch order, with ids counting up, result i stamped `clock(i)`, and exactly the relationships `BatchLinks` predicts; a failure creating result k keeps the first k with all their relationships |
| ResultsPipeline.ResultStore.ProcessSessionResults | src/server/resultsManager/actions.js:6-69 | 401 without a user; a missing or foreign session, or a failing session lookup or raw `findMany`, surfaces as 500 with no writes, even with nothing to process; an empty batch returns processed 0 without `duplicatesFound`; otherwise processed = batch size, `duplicatesFound` = relationships appended, message built from both; each created result carries its own `clock(i)` |
| ResultsPipeline.CreatedTimestamps | src/server/resultsManager/actions.js:74-81 | each result of a batch is stamped with the time read while creating it, not one time for the whole batch |
| ResultsPipeline.Unprocessed | src/server/resultsManager/actions.js:19-31 | the batch is exactly the session's raw results without a processed result |
| ResultsPipeline.RerunFindsNothing | src/server/resultsManager/actions.js:19-35 | after a complete run a second run finds nothing to process |
| ResultsPipeline.AllPairsCount | src/server/resultsManager/actions.js:42-58 | k results yield k(k-1)/2 pairs |
| ResultsPipeline.SameUrlLinksAllPairs | src/server/resultsManager/actions.js:42-126 | when a batch shares one canonical URL absent from the store, the loop links exactly every pair once, when the later one is processed |
| ResultsPipeline.SameUrlRawBatch | src/server/resultsManager/actions.js:42-126 | k raw results normalising to one canonical URL yield k(k-1)/2 relationships, one per id pair, all `url_match` |
| ResultsPipeline.SameNormalizedUrlBatch | src/server/resultsManager/actions.js:42-126 | the same count for the source's own normaliser |
| ResultsPipeline.DoubleSlashBatchUnlinked | src/server/resultsManager/actions.js:102-175 | raw results all equal to `h//` are never linked, because the stored `h/` re-normalises to `h` |
| ResultsPipeline.BatchLinksNonCanonical | src/server/resultsManager/actions.js:102-110 | results stored under a non-canonical URL never match each other |
| Csv.EscapeField | src/server/reporting/actions.js:131-135 | a field is quoted iff it contains `,`, `"` or a newline; an unquoted field is the value itself |
| Csv.DoubleQuotes | src/server/reporting/actions.js:133-134 | doubling quotes changes nothing in a quote-free value and never shortens it |
| Csv.UndoubleDouble | src/server/reporting/actions.js:133-134 | un-doubling `""` undoes the doubling |
| Csv.EscapeRoundTrip | src/server/reporting/actions.js:131-135 | stripping the quotes and un-doubling restores every value |
| Csv.GenerateCsv | src/server/reporting/actions.js:116-142 | the CSV is empty iff there are no records |
| Csv.Table | src/server/reporting/actions.js:125-139 | one row per record, each with one value per header, taken by header key (missing as `""`) |
| Csv.GenerateCsvLines | src/server/reporting/actions.js:121-141 | the CSV is the unescaped header line and one escaped line per record, joined with `\n` |
| Csv.GenerateCsvRoundTrip | src/server/reporting/actions.js:116-142 | reading the CSV back gives the headers and every record's values |
| Csv.ReadFieldOf | src/server/reporting/actions.js:131-135 | the reader recovers an escaped field followed by a separator |
| Export.Selected | src/server/reporting/actions.js:37-60 | the exported results are exactly the session's, restricted to those carrying the tag when one is given |
| Export.TagNames | src/server/reporting/actions.js:66 | one tag name per assignment, in assignment order |
| Export.FormatRow | src/server/reporting/actions.js:62-84 | each column comes from its source: title, URL and snippet of the processed result, domain and file type from its metadata, engine and rank from the raw result, the query text (`null` kept); tags are empty without assignments and notes empty without notes |
| Export.LatestNote | src/server/reporting/actions.js:67-68 | no notes give `""` |
| Export.LatestNoteIsNewest | src/server/reporting/actions.js:52-68 | otherwise the content is that of a note with the greatest `createdAt` |
| Export.ExportResults | src/server/reporting/actions.js:6-111 | 401, then a failing session lookup 500, then 404/403, format matched case-insensitively, `csv` gives the generated CSV and `json` the stringified rows, anything else a 400 that is not turned into 500; an omitted format is `csv`, a `null` one fails at `toLowerCase` and is a 500 |
| Export.NullFormatIsNotCsv | src/server/reporting/actions.js:6-109 | with access granted, an omitted format exports CSV, while an explicit `null` format is a 500 |
| Export.CsvExportReadsBack | src/server/reporting/actions.js:62-142 | the CSV export is empty iff no row is exported, and otherwise reads back as the header row and each row's printed fields |
| Export.HeadersDistinct | src/server/reporting/actions.js:70-83 | the export columns are pairwise distinct |
| Report.SessionResults | src/server/reporting/queries.js:29-40 | exactly the session's processed results |
| Report.SessionDuplicates | src/server/reporting/queries.js:63-70 | a relationship counts once when either end belongs to the session |
| Report.AssignmentsOfTag | src/server/reporting/queries.js:43-60 | exactly the assignments carrying the tag, each as often as it is stored, so a tag's count is the number of its assignments |
| Report.FileTypeCounts | src/server/reporting/queries.js:85-96 | the loop builds the histogram of the results' types, `unknown` for a missing type, in first-occurrence order |
| Report.HistogramTotal | src/server/reporting/queries.js:38-96 | the histogram counts sum to the number of results |
| Report.HistogramDistinct | src/server/reporting/queries.js:92-111 | the histogram's types are pairwise distinct |
| Report.HistogramCoversResults | src/server/reporting/queries.js:85-96 | every result's type has an entry |
| Report.HistogramCountsResults | src/server/reporting/queries.js:85-96 | each entry counts exactly the results of its type |
| Report.UntaggedCount | src/server/reporting/queries.js:73-82 | processed minus tagged equals the number of untagged results |
| Report.SessionQueries | src/server/reporting/queries.js:13-18 | exactly the stored queries of the session, each under its own id |
| Report.GetReportData | src/server/reporting/queries.js:6-121 | 401, then a failing session lookup 500, then 404/403; otherwise the summary counts, the session's queries (their number is `queriesCount`), the tag counts and the histogram above |
| ReviewActions.FindTagNamed | src/server/reviewResults/actions.js:35-45 | finds a session tag whose name equals the given one ignoring case, or reports that none exists |
| ReviewActions.UniqueTagNamesAppend | src/server/reviewResults/actions.js:35-56 | adding a tag whose name is new to its session keeps names unique per session ignoring case |
| ReviewActions.FindAssignment | src/server/reviewResults/actions.js:97-133 | the first assignment of the pair, or none exists |
| ReviewActions.AddAssignment | src/server/reviewResults/actions.js:134-142 | appending an absent pair keeps pairs unique and adds exactly that pair |
| ReviewActions.RemoveUnlinks | src/server/reviewResults/actions.js:95-112 | deleting the found assignment removes exactly that pair |
| ReviewActions.RemoveKeepsOtherPair | src/server/reviewResults/actions.js:95-112 | every other pair stays |
| ReviewActions.AssignThenRemove | src/server/reviewResults/actions.js:95-142 | assigning an absent pair and then removing it restores the assignments |
| ReviewActions.ResultAccess | src/server/reviewResults/actions.js:85-93 | 404 for a missing result, 403 for a result of another user's session |
| ReviewActions.ReviewStore.constructor | src/server/reviewResults/actions.js:6-199 | the tag, assignment and note stores start empty |
| ReviewActions.ReviewStore.CreateReviewTag | src/server/reviewResults/actions.js:6-65 | 401, a failing session lookup 500, 404, 403, blank name 400, blank colour 400, duplicate name 400, in that order; otherwise exactly one tag added |
| ReviewActions.ReviewStore.AssignTag | src/server/reviewResults/actions.js:70-151 | 401, result 404/403, then removal or addition; errors change nothing; the pair set loses or gains exactly the pair |
| ReviewActions.ReviewStore.RemoveTag | src/server/reviewResults/actions.js:95-112 | an absent pair gives 404; otherwise exactly that assignment is deleted; the tag's session is not checked |
| ReviewActions.ReviewStore.AddTag | src/server/reviewResults/actions.js:115-142 | tag 404, tag of another session 400, an assigned pair "Tag already assigned" with nothing added, otherwise one assignment added |
| ReviewActions.ReviewStore.CreateNote | src/server/reviewResults/actions.js:156-199 | 401, whitespace content 400 before any lookup, then 404/403, store failure 500; otherwise exactly one note appended |
| Entities.SessionAccess | src/server/reviewResults/queries.js:50-66 | 401 without a user, 404 for a missing session, 403 for another user's session |
| Entities.TagById | src/server/reviewResults/actions.js:115-119 | the stored tag with that id, or none exists |
| ReviewQueries.TagsByName | src/server/reviewResults/queries.js:26-29 | exactly the session's tags, sorted by name ascending |
| ReviewQueries.GetReviewTags | src/server/reviewResults/queries.js:6-38 | 401/404/403 passed through, store failure 500, otherwise the tags by name |
| ReviewQueries.Matching | src/server/reviewResults/queries.js:69-83 | the session's results with the tag, or without tags when untaggedOnly |
| ReviewQueries.TagIdWins | src/server/reviewResults/queries.js:69-83 | a given tag id overrides untaggedOnly |
| ReviewQueries.FiltersNarrow | src/server/reviewResults/queries.js:69-83 | both filters select from the session's results and never select the same result |
| ReviewQueries.PageCount | src/server/reviewResults/queries.js:117-124 | the page count is the ceiling of count / limit, 0 iff nothing matches |
| ReviewQueries.PageSlice | src/server/reviewResults/queries.js:112-115 | at most `limit` results, taken in order from index (page-1)·limit |
| ReviewQueries.EveryResultOnItsPage | src/server/reviewResults/queries.js:112-124 | every result appears on exactly the page its index gives, and that page is within the page count |
| ReviewQueries.PagesPastTheEndEmpty | src/server/reviewResults/queries.js:112-124 | pages beyond the page count are empty |
| ReviewQueries.GetResultsWithTags | src/server/reviewResults/queries.js:43-134 | 401/404/403 passed through, store failure 500; otherwise the title-sorted selection's page, defaults page 1 and limit 20 for omitted arguments, with count, page count and the echoed page; a `null` page or limit is a 500 |
| ReviewQueries.OmittedPagingDefaults | src/server/reviewResults/queries.js:43-134 | omitted paging gives page 1 of 20 results; a `null` page or limit is not defaulted and the query fails with 500 |
| ReviewQueries.PageIsOrderedSelection | src/server/reviewResults/queries.js:89-115 | a page holds at most `limit` wanted results, in title order |
| SearchStrategy.IfTruthy | src/server/searchStrategy/actions.js:26-29 | an optional field is stored only when truthy |
| SearchStrategy.Updated | src/server/searchStrategy/actions.js:150-156 | each field is written when given, `null` included, and kept otherwise |
| SearchStrategy.UpdateWritesExactlyGivenFields | src/server/searchStrategy/actions.js:150-156 | a field changes only if it was given |
| SearchStrategy.EmptyUpdateChangesNothing | src/server/searchStrategy/actions.js:150-156 | an update giving nothing leaves the query as it was |
| SearchStrategy.UpdateIdempotent | src/server/searchStrategy/actions.js:150-156 | applying an update twice equals applying it once |
| SearchStrategy.UpdateTouchesOneQuery | src/server/searchStrategy/actions.js:158-168 | updating one query leaves every other query unchanged |
| SearchStrategy.StrategyStore.constructor | src/server/searchStrategy/actions.js:6-179 | the session and query stores start empty |
| SearchStrategy.StrategyStore.CreateSearchSession | src/server/searchStrategy/actions.js:6-48 | 401, blank name 400, failing create 500; otherwise one session owned by the caller, team id only when truthy, and the reply is its id, name and description |
| SearchStrategy.StrategyStore.CreateSearchQuery | src/server/searchStrategy/actions.js:53-114 | 401, missing session id 400, blank query 400 before the lookup, missing or foreign session the same 404, failing create 500; otherwise one query, and the reply is its id, query, description and session id |
| SearchStrategy.StrategyStore.UpdateSearchQuery | src/server/searchStrategy/actions.js:119-179 | 401, missing id 400, unowned 404, store failure 500; otherwise only that query is replaced by its update |
| Auth.ValidEmailIffPattern | src/server/auth/actions.js:151-154 | `isValidEmail` holds iff there is exactly one `@`, no whitespace, a non-empty local part and a `.` in the domain that is neither first nor last |
| Auth.IsValidEmail | src/server/auth/actions.js:151-154 | an accepted email has at least five characters and an `@` that is not its first character |
| Auth.ValidEmailMatches | src/server/auth/actions.js:151-154 | the check implies the pattern |
| Auth.MatchingEmailValid | src/server/auth/actions.js:151-154 | the pattern implies the check |
| Auth.UserStore.UpdateUserProfile | src/server/auth/actions.js:3-63 | 401, malformed email 400, email of another user 400, failing update 500; an email that is not `undefined` is written, the empty one (which skips the checks) and `null` included; only the email is ever written; the reply is the new profile without the password hash |
| Auth.ProfileWithholdsPassword | src/server/auth/actions.js:45-56 | the reply of updateUserProfile does not depend on the stored password hash |
| Auth.UserStore.ChangePassword | src/server/auth/actions.js:65-111 | 401, new password shorter than 8 rejected before any lookup, wrong current password 400, store failure 500; only a verified change writes the new hash |
| Pagination.PageNumbers | src/client/reviewResults/components/Pagination.tsx:27 | the pages 1 to totalPages in order |
| Pagination.VisiblePagesExactly | src/client/reviewResults/components/Pagination.tsx:27-32 | the shown pages are exactly those in 1..totalPages that are first, last or within 1 of the current page, strictly increasing |
| Pagination.VisiblePagesBounds | src/client/reviewResults/components/Pagination.tsx:27-32 | the list holds 1, totalPages and an in-range current page, and at most 5 pages |
| Pagination.Render | src/client/reviewResults/components/Pagination.tsx:10-78 | no bar iff totalPages ≤ 1; Previous asks for current-1 and is disabled iff current = 1, Next asks for current+1 and is disabled iff current = totalPages |
| Pagination.RenderSlots | src/client/reviewResults/components/Pagination.tsx:33-66 | one button per shown page, requesting that page, active iff current, with an ellipsis iff it skips past the previous page |
| Pagination.EllipsisPlacement | src/client/reviewResults/components/Pagination.tsx:33-52 | an ellipsis only precedes current-1 or the last page |
| Pagination.AtMostTwoEllipses | src/client/reviewResults/components/Pagination.tsx:33-52 | of two ellipses the first precedes current-1 and the second the last page, so there are at most two |
| ResultReview.CreateTagCall | src/client/reviewResults/hooks/useResultReview.ts:28-38 | a blank name throws "Tag name is required" without a call; otherwise createReviewTag is called |
| ResultReview.AssignTagCall | src/client/reviewResults/hooks/useResultReview.ts:47-55 | assigning never throws on the client: it asks the server to add exactly that result and tag |
| ResultReview.RemoveTagCall | src/client/reviewResults/hooks/useResultReview.ts:47-59 | removing is the assign call with `remove` set |
| ResultReview.AddNoteCall | src/client/reviewResults/hooks/useResultReview.ts:67-73 | blank content throws "Note content is required" without a call; otherwise createNote is called |
| ResultReview.ShownPagination | src/client/reviewResults/hooks/useResultReview.ts:91-95 | without data the pagination is {0, 1, 1} |
| ResultReview.ShownResults | src/client/reviewResults/hooks/useResultReview.ts:90 | without data the results are empty |
| ResultReview.ShownTags | src/client/reviewResults/hooks/useResultReview.ts:89 | without data the tags are empty |
| ResultReview.NoBarWithoutPages | src/client/reviewResults/hooks/useResultReview.ts:91-95 | with no data, or with nothing matching, no pagination bar is rendered |
| ResultReview.ReviewView.constructor | src/client/reviewResults/hooks/useResultReview.ts:10-12 | page 1, no tag, not untagged-only |
| ResultReview.ReviewView.Request | src/client/reviewResults/hooks/useResultReview.ts:20-26 | results are requested with limit 10 and the current tag, untagged flag and page |
| ResultReview.ReviewView.HandlePageChange | src/client/reviewResults/hooks/useResultReview.ts:81-85 | pages below 1, or above totalPages when data exists, are ignored; any other page is set, so a page within range stays within range |
| ResultReview.ReviewView.SetSelectedTagId | src/client/reviewResults/hooks/useResultReview.ts:11 | the tag selection is replaced |
| ResultReview.ReviewView.SetUntaggedOnly | src/client/reviewResults/hooks/useResultReview.ts:12 | the untagged flag is replaced |
| ResultReview.RequestIsServed | src/client/reviewResults/hooks/useResultReview.ts:20-26 | a served request returns at most 10 results and echoes the page |
| ResultsFiltering.FileTypeOf | src/client/resultsManager/hooks/useResultsFiltering.ts:36 | the text after the last `.` of the URL, the whole URL without one, not lower-cased |
| ResultsFiltering.Keep | src/client/resultsManager/hooks/useResultsFiltering.ts:18-42 | a row is kept iff the term matches title or snippet ignoring case, its domain is selected (if any are) and its file type is selected (if any are); an unparsable URL under a domain filter throws |
| ResultsFiltering.FilteredResults | src/client/resultsManager/hooks/useResultsFiltering.ts:15-63 | no results give `[]`; a throwing row fails the whole list; otherwise a permutation of the kept rows, sorted by the chosen field and direction |
| ResultsFiltering.FilteredMembers | src/client/resultsManager/hooks/useResultsFiltering.ts:18-42 | a row is listed iff it is kept |
| ResultsFiltering.InitialViewKeepsOrder | src/client/resultsManager/hooks/useResultsFiltering.ts:6-57 | with the initial filters and no relevance scores, every row is listed in its original order |
| Sorting.SortByStable | src/client/resultsManager/hooks/useResultsFiltering.ts:43-62 | `Array.prototype.sort` is stable: after sorting, the elements sharing any one key appear in their input order |
| ResultsFiltering.SortChanged | src/client/resultsManager/hooks/useResultsFiltering.ts:89-98 | the same field flips the direction, a new field starts descending, nothing else changes |
| ResultsFiltering.SortChangedTwice | src/client/resultsManager/hooks/useResultsFiltering.ts:89-98 | choosing the current field twice restores the state |
| ResultsFiltering.NonEmptyImages | src/client/resultsManager/hooks/useResultsFiltering.ts:68-80 | the non-empty images of the rows |
| ResultsFiltering.UniqueDomains | src/client/resultsManager/hooks/useResultsFiltering.ts:66-76 | duplicate-free, no empty string, exactly the parsed domains |
| ResultsFiltering.UniqueFileTypes | src/client/resultsManager/hooks/useResultsFiltering.ts:78-82 | duplicate-free, no empty string, exactly the file types |
| ResultsFiltering.ChoicesInFirstOccurrenceOrder | src/client/resultsManager/hooks/useResultsFiltering.ts:66-82 | both lists keep first-occurrence order |
| ResultsFiltering.FilteringView.constructor | src/client/resultsManager/hooks/useResultsFiltering.ts:6-12 | empty term, relevance, descending, no domains, no file types |
| ResultsFiltering.FilteringView.HandleSearchChange | src/client/resultsManager/hooks/useResultsFiltering.ts:85-87 | only the term changes |
| ResultsFiltering.FilteringView.HandleSortChange | src/client/resultsManager/hooks/useResultsFiltering.ts:89-98 | the filters become the sort change of the old ones |
| ResultsFiltering.FilteringView.ToggleDomainFilter | src/client/resultsManager/hooks/useResultsFiltering.ts:100-110 | the domain's membership flips, the selection stays duplicate-free, other fields unchanged |
| ResultsFiltering.FilteringView.ToggleFileTypeFilter | src/client/resultsManager/hooks/useResultsFiltering.ts:112-122 | the file type's membership flips, the selection stays duplicate-free, other fields unchanged |
| Lists.Toggle | src/client/resultsManager/components/ResultsFilter.tsx:41-47 | the item's membership flips, nothing else's; an absent item is appended, a present one is removed everywhere |
| Lists.ToggleTwice | src/client/serpExecution/components/SearchEngineSelector.tsx:20-23 | toggling an absent item twice restores the list |
| Lists.ToggleNoDuplicates | src/client/resultsManager/hooks/useResultsFiltering.ts:100-122 | toggling keeps a list duplicate-free |
| Lists.Dedupe | src/client/resultsManager/hooks/useResultsFiltering.ts:74-81 | `[...new Set(xs)]` is duplicate-free with the same members |
| Lists.DedupeFirstOccurrenceOrder | src/client/resultsManager/hooks/useResultsFiltering.ts:74-81 | and in first-occurrence order |
| ResultsManagerView.Listed | src/client/resultsManager/hooks/useResultsManager.ts:42-113 | a permutation of the results passing the term, source and date filters, sorted by the chosen field and direction unless none is chosen |
| ResultsManagerView.ListedMembers | src/client/resultsManager/hooks/useResultsManager.ts:44-81 | a result is listed iff the term matches title or a present snippet ignoring case, its engine is present and selected when sources are chosen, and it has no date or one within the inclusive bounds |
| ResultsManagerView.EmptyCriteriaKeepAll | src/client/resultsManager/hooks/useResultsManager.ts:45-62 | an unset criterion keeps every result, so skipping its filter changes nothing |
| ResultsManagerView.DefaultListsLargestRankFirst | src/client/resultsManager/hooks/useResultsManager.ts:11-103 | under the default criteria the largest rank comes first |
| ResultsManagerView.ComparatorsMatchOrder | src/client/resultsManager/hooks/useResultsManager.ts:88-111 | both comparators are antisymmetric, the title/date one returns -1, 0 or 1, and each is non-positive iff the pair is in order for the chosen direction |
| ResultsManagerView.ManagerView.constructor | src/client/resultsManager/hooks/useResultsManager.ts:8-21 | default criteria, nothing listed, not processing, no error, no success |
| ResultsManagerView.ManagerView.SetFilters | src/client/resultsManager/hooks/useResultsManager.ts:11 | the criteria are replaced |
| ResultsManagerView.ManagerView.ApplyFilters | src/client/resultsManager/hooks/useResultsManager.ts:39-116 | without processed results the list is kept; otherwise it becomes `Listed` of a copy of them |
| ResultsManagerView.ManagerView.ProcessResults | src/client/resultsManager/hooks/useResultsManager.ts:119-138 | no raw results: "No raw results to process" and no call; otherwise processing during the call, not afterwards, success or the thrown message (default "An error occurred during processing") |
| ResultsFilter.FilterPanel.constructor | src/client/resultsManager/components/ResultsFilter.tsx:19-24 | the panel opens on the default criteria |
| ResultsFilter.FilterPanel.ToggleSource | src/client/resultsManager/components/ResultsFilter.tsx:41-47 | the source's membership flips and the selection stays duplicate-free |
| ResultsFilter.FilterPanel.HandleApplyFilter | src/client/resultsManager/components/ResultsFilter.tsx:49-60 | emits the panel's state with the range {dateFrom, dateTo} |
| ResultsFilter.FilterPanel.HandleClearFilters | src/client/resultsManager/components/ResultsFilter.tsx:62-80 | resets to and emits the default criteria, the same as the opening state |
| EngineSelector.Selector.constructor | src/client/serpExecution/components/SearchEngineSelector.tsx:8-9 | the selection is the prop, `[]` when absent |
| EngineSelector.Selector.ToggleEngine | src/client/serpExecution/components/SearchEngineSelector.tsx:20-27 | membership flips, others unchanged, an addition appends; `onSelect` receives exactly the new selection |
| MainLayout.BelowIsActive | src/client/shared/components/MainLayout.tsx:13-15 | a location below a path activates it |
| MainLayout.SiblingNotActive | src/client/shared/components/MainLayout.tsx:13-15 | a sibling sharing only a prefix, such as `/reviewer` for `/review`, does not |
| MainLayout.ShorterNotActive | src/client/shared/components/MainLayout.tsx:13-15 | a proper prefix of a path does not |
| MainLayout.ActivePathsNest | src/client/shared/components/MainLayout.tsx:13-15 | two paths a location activates are equal or nested |
| MainLayout.AtMostOneTabActive | src/client/shared/components/MainLayout.tsx:13-72 | at most one of the four tabs is highlighted |
| ReportingPage.FileTypeIcon | src/client/reporting/pages/ReportingPage.tsx:324-341 | pdf, doc/docx, ppt/pptx, xls/xlsx and html each get their icon, matched on the lower-cased type |
| ReportingPage.IconIgnoresCase | src/client/reporting/pages/ReportingPage.tsx:325 | the icon does not depend on case |
| ReportingPage.PipelineTypesHaveIcons | src/client/reporting/pages/ReportingPage.tsx:339-340 | of the classifier's outputs only `unknown` gets the folder |
| ReportingPage.Excluded | src/client/reporting/pages/ReportingPage.tsx:124 | raw = excluded + processed + duplicates, negative iff duplicates exceed the unprocessed raw results |
| ReportingPage.StatValue | src/client/reporting/pages/ReportingPage.tsx:298 | a missing value shows as 0 |
| ReportingPage.ExportDisabled | src/client/reporting/pages/ReportingPage.tsx:275 | disabled iff exporting or the processed count is 0 |

## Left out

- Network and database: the ORM calls become in-memory stores; query composition, includes and ordering clauses are modelled only by their effect on the returned values.
- The search-engine client (an HTTP call to an external service) is not part of this model; raw results are given data.
- Concurrency: two simultaneous runs of the pipeline on one session, React effect timing and refetching are not modelled.
- Floating point: the report's percentage bars, durations and the constant similarity score 1.0 are not modelled.
- Unicode: `toLowerCase`, `trim` and `\s` are modelled on ASCII; `localeCompare` and database string ordering are modelled as code-unit order.
- Ids are natural numbers handed out by a counter, not UUIDs; `structuredData` is a string.
- `createdAt`/`updatedAt` timestamps other than note times and the processing time are not modelled.
- Date parsing (`new Date(...)`) is a parameter returning an integer: an invalid date, which compares false in JavaScript, is not modelled.
- `JSON.stringify` is a parameter; the export's file body for JSON is whatever it returns.
- Csv.GenerateCsv: rows are joined with `\n`, not CRLF, and a carriage return does not trigger quoting, as in the source.
- Export.LatestNote: among notes with equal `createdAt` the chosen one is the earliest in store order; the source's sort leaves this to the engine.
- ReviewQueries.GetResultsWithTags: pages and limits below 1 are excluded by a precondition; the source passes them to the database unchecked.
- Store failures are one boolean per action, standing for the store call its doc comment names; a failure of another call that the same `try` catches gives the same status and is not modelled separately.
- Auth.UserStore.UpdateUserProfile: a failure of the email-uniqueness lookup, which lies outside the `try`, is not modelled.
- SearchStrategy.StrategyStore.CreateSearchQuery: a failure of the session `findFirst` (src/server/searchStrategy/actions.js:69), which lies outside the `try`, is not modelled; in the source it escapes as the raw store error, not as the 500 "Failed to create search query".
- SearchStrategy.StrategyStore.UpdateSearchQuery: a failure of the ownership `findFirst` (src/server/searchStrategy/actions.js:132), which lies outside the `try`, is not modelled; in the source it escapes as the raw store error, not as the 500 "Failed to update search query".
- Auth.UserStore.UpdateUserProfile: the database schema is not part of this model, so a `null` email is always written; if the column refused `null`, that would be a failing write, which `storeFails` stands for.
- ResultsPipeline.ResultStore.ProcessBatch: a failure while creating one of result k's duplicate relationships (inside findDuplicates) is not modelled. In the source it leaves result k stored with only some of its relationships; k then counts as processed, so a rerun never creates the missing pairs. The all-pairs property (`SameUrlLinksAllPairs`) assumes this failure does not occur.
- Report.GetReportData: `queries` is a map keyed by id; the order in which the store returns a session's queries is not modelled.
- The replies' `select` projections are modelled where they drop stored fields (the profile's password hash, the created session's owner and team, the created query's type and structured data); `username`, `createdAt` and `updatedAt` are not part of the entities.
- Foreign-key consistency of the stores (every result's session exists) is a precondition, not checked at run time.
- The review hooks' `isLoading`/`error` pass-through, console logging, alerts and the file download of the export are not modelled.
- ResultsFiltering.FilteringView: the raw `setFilters` setter is not modelled; the handlers are.
- ResultsFiltering.Keep: a URL that `new URL` rejects under an active domain filter throws inside the filter; this is modelled as the whole list failing (`None`).
- ResultsManagerView.ManagerView.ProcessResults: the server call and the refetch are one outcome parameter; their own behaviour is in `ResultsPipeline`.
- ResultsFilter.FilterPanel: the single-field setters of the term, dates and sort inputs are plain assignments and are not modelled separately.
- The user-role action of the profile module is commented out in the source and is not modelled.
