/**
 * The result-processing pipeline (processSessionResults): every raw result
 * of a session that has no processed result yet becomes one processed
 * result with a normalised URL, and each stored processed result whose URL
 * equals that URL normalised once more is linked to it by one duplicate
 * relationship.
 *
 * The three URL functions the pipeline applies (normalizeUrl,
 * extractDomain, extractFileType) are a parameter of the definitions below
 * and a constant of the store, which its constructor fixes to
 * `SourceUrlFunctions`; the lemmas at the end state what the pipeline does
 * for any normaliser and then for `NormalizeUrl` itself.
 */
module ResultsPipeline {
  import opened Wrappers
  import opened Text
  import opened Entities
  import opened UrlNormalizer
  import opened Lists

  /** What createProcessedResult computes from a raw URL. */
  datatype UrlFunctions = UrlFunctions(normalize: string -> string, domainOf: string -> string,
                                       fileTypeOf: string -> string)

  /** normalizeUrl, extractDomain and extractFileType over the platform URL parser. */
  function SourceUrlFunctions(parse: UrlParser): (f: UrlFunctions)
    ensures forall u :: f.normalize(u) == NormalizeUrl(u)
    ensures forall u :: f.domainOf(u) == ExtractDomain(u, parse)
    ensures forall u :: f.fileTypeOf(u) == ExtractFileType(u, parse)
  {
    UrlFunctions(NormalizeUrl, u => ExtractDomain(u, parse), u => ExtractFileType(u, parse))
  }

  /** The action's reply; `duplicatesFound` is absent from the empty-batch reply. */
  datatype Summary = Summary(processed: nat, duplicatesFound: Option<nat>, message: string)

  /** createProcessedResult's record for `raw`, stored under `id`. */
  function ProcessedFrom(raw: RawSearchResult, id: Id, sessionId: Id, urls: UrlFunctions, now: string)
    : ProcessedResult
  {
    var metadata := Metadata(urls.domainOf(raw.url), urls.fileTypeOf(raw.url), raw.searchEngine, raw.rank, now);
    ProcessedResult(id, raw.id, sessionId, raw.title, urls.normalize(raw.url), raw.snippet, metadata)
  }

  /** The relationship stored for two results: the smaller id is the primary one. */
  function Link(a: Id, b: Id): (d: DuplicateRelationship)
    ensures d.primaryResultId <= d.duplicateResultId
    ensures a <= b ==> d.primaryResultId == a && d.duplicateResultId == b
    ensures b <= a ==> d.primaryResultId == b && d.duplicateResultId == a
    ensures d.duplicateType == "url_match"
  {
    DuplicateRelationship(if a < b then a else b, if a < b then b else a, "url_match")
  }

  /**
   * The lookup of findDuplicates: a stored result is a duplicate of `r` when
   * its URL equals `r`'s URL normalised once more and its id differs.
   */
  predicate IsDuplicateOf(p: ProcessedResult, r: ProcessedResult, normalize: string -> string)
  {
    p.url == normalize(r.url) && p.id != r.id
  }

  /** The stored results findDuplicates finds for `r`, in store order. */
  function Matching(store: seq<ProcessedResult>, r: ProcessedResult, normalize: string -> string)
    : (m: seq<ProcessedResult>)
    ensures |m| <= |store|
  {
    if store == [] then []
    else (if IsDuplicateOf(store[0], r, normalize) then [store[0]] else []) + Matching(store[1..], r, normalize)
  }

  /** findDuplicates finds exactly the stored duplicates of `r`. */
  lemma {:induction false} MatchingMembers(store: seq<ProcessedResult>, r: ProcessedResult, normalize: string -> string)
    ensures forall p :: p in Matching(store, r, normalize) <==> p in store && IsDuplicateOf(p, r, normalize)
  {
    if store != [] {
      MatchingMembers(store[1..], r, normalize);
      assert store == [store[0]] + store[1..];
    }
  }

  /** The relationships findDuplicates creates for `r`, one per match. */
  function LinksTo(matches: seq<ProcessedResult>, r: ProcessedResult): (links: seq<DuplicateRelationship>)
    ensures |links| == |matches|
  {
    if matches == [] then []
    else LinksTo(matches[..|matches| - 1], r) + [Link(matches[|matches| - 1].id, r.id)]
  }

  lemma LinksToStep(matches: seq<ProcessedResult>, i: nat, r: ProcessedResult, done: seq<DuplicateRelationship>)
    requires i < |matches| && done == LinksTo(matches[..i], r)
    ensures done + [Link(matches[i].id, r.id)] == LinksTo(matches[..i + 1], r)
  {
    assert matches[..i + 1][..i] == matches[..i];
  }

  /** The i-th relationship links the i-th match to `r`. */
  lemma {:induction false} LinksToAt(matches: seq<ProcessedResult>, r: ProcessedResult)
    ensures forall i :: 0 <= i < |matches| ==> LinksTo(matches, r)[i] == Link(matches[i].id, r.id)
  {
    if matches != [] {
      LinksToAt(matches[..|matches| - 1], r);
    }
  }

  /**
   * The relationships a batch creates: result `j` of `created` is checked
   * against the store as it is right after its own creation, which holds
   * `before` and results `0..j` of the batch.
   */
  function BatchLinks(before: seq<ProcessedResult>, created: seq<ProcessedResult>, normalize: string -> string)
    : seq<DuplicateRelationship>
    decreases |created|
  {
    if created == [] then []
    else
      var last := created[|created| - 1];
      BatchLinks(before, created[..|created| - 1], normalize)
      + LinksTo(Matching(before + created, last, normalize), last)
  }

  /**
   * The processed results a batch creates, with consecutive ids from
   * `firstId`; `clock(i)` is the time read while creating the i-th one.
   */
  function Created(batch: seq<RawSearchResult>, firstId: Id, sessionId: Id, urls: UrlFunctions, clock: nat -> string): (c: seq<ProcessedResult>)
    ensures |c| == |batch|
    decreases |batch|
  {
    if batch == [] then []
    else
      Created(batch[..|batch| - 1], firstId, sessionId, urls, clock)
      + [ProcessedFrom(batch[|batch| - 1], firstId + |batch| - 1, sessionId, urls, clock(|batch| - 1))]
  }

  /** The i-th created record is raw result i's, under id `firstId + i`. */
  lemma {:induction false} CreatedAt(batch: seq<RawSearchResult>, firstId: Id, sessionId: Id, urls: UrlFunctions, clock: nat -> string)
    ensures forall i :: 0 <= i < |batch| ==>
      Created(batch, firstId, sessionId, urls, clock)[i] == ProcessedFrom(batch[i], firstId + i, sessionId, urls, clock(i))
  {
    if batch != [] {
      CreatedAt(batch[..|batch| - 1], firstId, sessionId, urls, clock);
    }
  }

  /** The created records carry consecutive ids and the normalised raw URLs. */
  lemma CreatedIdsAndUrls(batch: seq<RawSearchResult>, firstId: Id, sessionId: Id, urls: UrlFunctions, clock: nat -> string)
    ensures forall i :: 0 <= i < |batch| ==>
      && Created(batch, firstId, sessionId, urls, clock)[i].id == firstId + i
      && Created(batch, firstId, sessionId, urls, clock)[i].url == urls.normalize(batch[i].url)
  {
    CreatedAt(batch, firstId, sessionId, urls, clock);
  }

  /** Each created record is stamped with the time read while creating it, not one time for the batch. */
  lemma CreatedTimestamps(batch: seq<RawSearchResult>, firstId: Id, sessionId: Id, urls: UrlFunctions, clock: nat -> string)
    ensures forall i :: 0 <= i < |batch| ==> Created(batch, firstId, sessionId, urls, clock)[i].metadata.processedAt == clock(i)
  {
    CreatedAt(batch, firstId, sessionId, urls, clock);
  }

  lemma CreatedStep(batch: seq<RawSearchResult>, i: nat, firstId: Id, sessionId: Id, urls: UrlFunctions, clock: nat -> string,
                    done: seq<ProcessedResult>, p: ProcessedResult)
    requires i < |batch| && done == Created(batch[..i], firstId, sessionId, urls, clock)
    requires p == ProcessedFrom(batch[i], firstId + i, sessionId, urls, clock(i))
    ensures done + [p] == Created(batch[..i + 1], firstId, sessionId, urls, clock)
  {
    assert batch[..i + 1][..i] == batch[..i];
  }

  lemma BatchLinksStep(before: seq<ProcessedResult>, created: seq<ProcessedResult>, p: ProcessedResult,
                       normalize: string -> string)
    ensures BatchLinks(before, created + [p], normalize)
         == BatchLinks(before, created, normalize) + LinksTo(Matching(before + created + [p], p, normalize), p)
  {
    assert (created + [p])[..|created|] == created;
    assert before + (created + [p]) == before + created + [p];
  }

  lemma AppendAssoc<T>(a: seq<T>, b: seq<T>, c: seq<T>)
    ensures a + b + c == a + (b + c)
  {
  }

  /** A raw result whose query belongs to the session. */
  predicate InSession(r: RawSearchResult, queries: map<Id, SearchQuery>, sessionId: Id)
  {
    r.queryId in queries && queries[r.queryId].sessionId == sessionId
  }

  predicate HasProcessed(r: RawSearchResult, processed: seq<ProcessedResult>)
  {
    exists p :: p in processed && p.rawResultId == r.id
  }

  /** The session's raw results without a processed result, in store order. */
  function Unprocessed(raw: seq<RawSearchResult>, queries: map<Id, SearchQuery>, sessionId: Id,
                       processed: seq<ProcessedResult>): (batch: seq<RawSearchResult>)
    ensures forall r :: r in batch <==> r in raw && InSession(r, queries, sessionId) && !HasProcessed(r, processed)
  {
    if raw == [] then []
    else
      (if InSession(raw[0], queries, sessionId) && !HasProcessed(raw[0], processed) then [raw[0]] else [])
      + Unprocessed(raw[1..], queries, sessionId, processed)
  }

  function SuccessMessage(processed: nat, duplicates: nat): string
  {
    "Processed " + NatToString(processed) + " results with " + NatToString(duplicates)
    + " potential duplicates identified"
  }

  const NothingToProcess := "No new results to process"
  const ProcessingFailed := HttpError(InternalError, "Failed to process session results")

  /** Every stored id is below the next id to hand out, so a new id is fresh. */
  ghost predicate IdsBelow(processed: seq<ProcessedResult>, next: Id)
  {
    forall i :: 0 <= i < |processed| ==> processed[i].id < next
  }

  lemma IdsBelowAppend(processed: seq<ProcessedResult>, p: ProcessedResult, next: Id)
    requires IdsBelow(processed, next) && p.id == next
    ensures IdsBelow(processed + [p], next + 1)
  {
  }

  /** The ProcessedResult and DuplicateRelationship tables. */
  class ResultStore {
    const urls: UrlFunctions
    var processed: seq<ProcessedResult>
    var relationships: seq<DuplicateRelationship>
    var nextId: Id

    ghost predicate Valid()
      reads this`processed, this`nextId
    {
      IdsBelow(processed, nextId)
    }

    /** An empty store whose URL functions are the source's, over `parse`. */
    constructor (parse: UrlParser)
      ensures Valid() && processed == [] && relationships == []
      ensures urls == SourceUrlFunctions(parse)
    {
      urls := SourceUrlFunctions(parse);
      processed, relationships, nextId := [], [], 0;
    }

    /** createProcessedResult: stores exactly one new record for `raw`. */
    method CreateProcessedResult(raw: RawSearchResult, sessionId: Id, now: string)
      returns (p: ProcessedResult)
      requires Valid()
      modifies this
      ensures Valid()
      ensures p == ProcessedFrom(raw, old(nextId), sessionId, urls, now)
      ensures processed == old(processed) + [p] && nextId == old(nextId) + 1
      ensures relationships == old(relationships)
    {
      p := ProcessedFrom(raw, nextId, sessionId, urls, now);
      IdsBelowAppend(processed, p, nextId);
      processed := processed + [p];
      nextId := nextId + 1;
    }

    /**
     * findDuplicates: looks up the stored results matching `newResult` (over
     * every session) and creates one relationship per match, returning them.
     */
    method FindDuplicates(newResult: ProcessedResult) returns (found: seq<DuplicateRelationship>)
      modifies this
      ensures found == LinksTo(Matching(processed, newResult, urls.normalize), newResult)
      ensures relationships == old(relationships) + found
      ensures processed == old(processed) && nextId == old(nextId)
    {
      var potentialDuplicates := Matching(processed, newResult, urls.normalize);
      found := [];
      var i := 0;
      while i < |potentialDuplicates|
        invariant 0 <= i <= |potentialDuplicates|
        invariant found == LinksTo(potentialDuplicates[..i], newResult)
        invariant relationships == old(relationships) + found
        invariant processed == old(processed) && nextId == old(nextId)
      {
        var relationship := Link(potentialDuplicates[i].id, newResult.id);
        AppendAssoc(old(relationships), found, [relationship]);
        LinksToStep(potentialDuplicates, i, newResult, found);
        relationships := relationships + [relationship];
        found := found + [relationship];
        i := i + 1;
      }
      assert potentialDuplicates[..i] == potentialDuplicates;
    }

    /** One iteration of processSessionResults' loop: create, then link. */
    method ProcessOne(raw: RawSearchResult, sessionId: Id, now: string)
      returns (p: ProcessedResult, found: seq<DuplicateRelationship>)
      requires Valid()
      modifies this
      ensures Valid()
      ensures p == ProcessedFrom(raw, old(nextId), sessionId, urls, now)
      ensures processed == old(processed) + [p] && nextId == old(nextId) + 1
      ensures found == LinksTo(Matching(old(processed) + [p], p, urls.normalize), p)
      ensures relationships == old(relationships) + found
    {
      p := CreateProcessedResult(raw, sessionId, now);
      found := FindDuplicates(p);
    }

    /**
     * The loop of processSessionResults over the batch: create each result,
     * then link it to its duplicates. `failAt == Some(k)` stands for a store
     * failure while creating the k-th result; the results before it stay
     * stored.
     */
    method ProcessBatch(rawResults: seq<RawSearchResult>, sessionId: Id, clock: nat -> string,
                        failAt: Option<nat>)
      returns (ok: bool, count: nat, duplicates: nat)
      requires Valid()
      modifies this
      ensures Valid()
      ensures var n := if failAt.Some? && failAt.value < |rawResults| then failAt.value else |rawResults|;
        var created := Created(rawResults[..n], old(nextId), sessionId, urls, clock);
        var links := BatchLinks(old(processed), created, urls.normalize);
        && processed == old(processed) + created
        && relationships == old(relationships) + links
        && ok == (n == |rawResults|) && count == n && duplicates == |links|
    {
      var n := if failAt.Some? && failAt.value < |rawResults| then failAt.value else |rawResults|;
      var processedResults: seq<ProcessedResult> := [];
      var duplicateRelationships: seq<DuplicateRelationship> := [];
      var i := 0;
      while i < n
        invariant i <= n
        invariant Valid()
        invariant processedResults == Created(rawResults[..i], old(nextId), sessionId, urls, clock)
        invariant processed == old(processed) + processedResults
        invariant nextId == old(nextId) + i
        invariant duplicateRelationships == BatchLinks(old(processed), processedResults, urls.normalize)
        invariant relationships == old(relationships) + duplicateRelationships
      {
        ghost var processedBefore, relationshipsBefore := processed, relationships;
        var processedResult, found := ProcessOne(rawResults[i], sessionId, clock(i));
        CreatedStep(rawResults, i, old(nextId), sessionId, urls, clock, processedResults, processedResult);
        AppendAssoc(old(processed), processedResults, [processedResult]);
        AppendAssoc(old(relationships), duplicateRelationships, found);
        BatchLinksStep(old(processed), processedResults, processedResult, urls.normalize);
        processedResults := processedResults + [processedResult];
        duplicateRelationships := duplicateRelationships + found;
        i := i + 1;
      }
      return n == |rawResults|, n, |duplicateRelationships|;
    }

    /**
     * processSessionResults: 401 without a user; every later error,
     * including a missing or foreign session, surfaces as 500. `readFails`
     * stands for a failure of the session lookup or of the `findMany` of the
     * unprocessed raw results: a 500 before anything is written, even when
     * there is nothing to process.
     */
    method ProcessSessionResults(user: Option<Id>, sessionId: Id, sessions: map<Id, SearchSession>,
                                 queries: map<Id, SearchQuery>, raw: seq<RawSearchResult>,
                                 clock: nat -> string, readFails: bool, failAt: Option<nat>)
      returns (r: Result<Summary>)
      requires Valid()
      modifies this
      ensures Valid()
      ensures user.None? ==> r == Err(HttpError(Unauthorized, "Unauthorized"))
      ensures user.Some? && (readFails || SessionAccess(user, sessions, sessionId).Err?) ==> r == Err(ProcessingFailed)
      ensures readFails || SessionAccess(user, sessions, sessionId).Err? ==>
        processed == old(processed) && relationships == old(relationships)
      ensures !readFails && SessionAccess(user, sessions, sessionId).Ok? ==>
        var batch := Unprocessed(raw, queries, sessionId, old(processed));
        var n := if failAt.Some? && failAt.value < |batch| then failAt.value else |batch|;
        var created := Created(batch[..n], old(nextId), sessionId, urls, clock);
        var links := BatchLinks(old(processed), created, urls.normalize);
        && processed == old(processed) + created
        && relationships == old(relationships) + links
        && (batch == [] ==> r == Ok(Summary(0, None, NothingToProcess)))
        && (batch != [] && n < |batch| ==> r == Err(ProcessingFailed))
        && (batch != [] && n == |batch| ==>
              r == Ok(Summary(|batch|, Some(|links|), SuccessMessage(|batch|, |links|))))
    {
      if user.None? {
        return Err(HttpError(Unauthorized, "Unauthorized"));
      }
      var access := SessionAccess(user, sessions, sessionId);
      if readFails || access.Err? {
        return Err(ProcessingFailed);
      }
      var rawResults := Unprocessed(raw, queries, sessionId, processed);
      if |rawResults| == 0 {
        assert rawResults[..0] == [];
        return Ok(Summary(0, None, NothingToProcess));
      }
      var ok, count, duplicates := ProcessBatch(rawResults, sessionId, clock, failAt);
      if !ok {
        return Err(ProcessingFailed);
      }
      return Ok(Summary(count, Some(duplicates), SuccessMessage(count, duplicates)));
    }
  }

  /** createProcessedResult's record under the source's URL functions. */
  lemma ProcessedFromSource(raw: RawSearchResult, id: Id, sessionId: Id, parse: UrlParser, now: string)
    ensures var p := ProcessedFrom(raw, id, sessionId, SourceUrlFunctions(parse), now);
      && p.id == id && p.rawResultId == raw.id && p.sessionId == sessionId
      && p.title == raw.title && p.snippet == raw.snippet
      && p.metadata.source == raw.searchEngine && p.metadata.rawRank == raw.rank && p.metadata.processedAt == now
      && p.url == NormalizeUrl(raw.url) && IsLowerCase(p.url) && |p.url| <= |raw.url|
      && (p.metadata.fileType in DocumentTypes || p.metadata.fileType in ["html", "unknown"])
      && (p.metadata.fileType == "unknown" <==> parse(raw.url).None?)
      && (parse(raw.url).None? ==> p.metadata.domain == "")
  {
  }

  /** The store can be split: findDuplicates' matches are found part by part. */
  lemma {:induction false} MatchingAppend(a: seq<ProcessedResult>, b: seq<ProcessedResult>, r: ProcessedResult,
                                          normalize: string -> string)
    ensures Matching(a + b, r, normalize) == Matching(a, r, normalize) + Matching(b, r, normalize)
  {
    if a == [] {
      assert a + b == b;
    } else {
      assert (a + b)[1..] == a[1..] + b;
      MatchingAppend(a[1..], b, r, normalize);
    }
  }

  lemma MatchingNone(store: seq<ProcessedResult>, r: ProcessedResult, normalize: string -> string)
    requires forall p :: p in store ==> !IsDuplicateOf(p, r, normalize)
    ensures Matching(store, r, normalize) == []
  {
    MatchingMembers(store, r, normalize);
  }

  lemma {:induction false} MatchingAll(store: seq<ProcessedResult>, r: ProcessedResult, normalize: string -> string)
    requires forall p :: p in store ==> IsDuplicateOf(p, r, normalize)
    ensures Matching(store, r, normalize) == store
  {
    if store != [] {
      MatchingAll(store[1..], r, normalize);
      assert store == [store[0]] + store[1..];
    }
  }

  /** The last of k same-URL results matches exactly the k-1 before it. */
  lemma LastMatchesEarlier(before: seq<ProcessedResult>, created: seq<ProcessedResult>, u: string,
                           normalize: string -> string)
    requires created != [] && normalize(u) == u
    requires forall p :: p in before ==> p.url != u
    requires forall i :: 0 <= i < |created| ==> created[i].url == u
    requires forall i, j :: 0 <= i < j < |created| ==> created[i].id != created[j].id
    ensures Matching(before + created, created[|created| - 1], normalize) == created[..|created| - 1]
  {
    var k := |created| - 1;
    var init, last := created[..k], created[k];
    assert created == init + [last];
    MatchingAppend(before, created, last, normalize);
    MatchingNone(before, last, normalize);
    MatchingAppend(init, [last], last, normalize);
    MatchingAll(init, last, normalize);
    MatchingNone([last], last, normalize);
  }

  lemma PairCountStep(k: nat)
    ensures k * (k - 1) / 2 + k == (k + 1) * k / 2
  {
    assert (k + 1) * k == k * (k - 1) + 2 * k;
  }

  /** One relationship per pair of `results`, created when the later one is processed. */
  function AllPairs(results: seq<ProcessedResult>): seq<DuplicateRelationship>
    decreases |results|
  {
    if results == [] then []
    else
      var init := results[..|results| - 1];
      AllPairs(init) + LinksTo(init, results[|results| - 1])
  }

  /** k results give k(k-1)/2 pairs. */
  lemma {:induction false} AllPairsCount(results: seq<ProcessedResult>)
    ensures |AllPairs(results)| == |results| * (|results| - 1) / 2
    decreases |results|
  {
    if results != [] {
      var k := |results| - 1;
      AllPairsCount(results[..k]);
      PairCountStep(k);
    }
  }

  /** Every earlier result is paired with every later one. */
  lemma {:induction false} AllPairsLinked(results: seq<ProcessedResult>)
    ensures forall i, j :: 0 <= i < j < |results| ==> Link(results[i].id, results[j].id) in AllPairs(results)
    decreases |results|
  {
    if results != [] {
      var k := |results| - 1;
      var init := results[..k];
      AllPairsLinked(init);
      var earlier, links := AllPairs(init), LinksTo(init, results[k]);
      LinksToAt(init, results[k]);
      forall i, j | 0 <= i < j < |results|
        ensures Link(results[i].id, results[j].id) in earlier + links
      {
        if j < k {
          assert Link(init[i].id, init[j].id) in earlier;
        } else {
          assert links[i] == Link(results[i].id, results[j].id);
        }
      }
    }
  }

  /** Nothing but such pairs is produced. */
  lemma {:induction false} AllPairsOnly(results: seq<ProcessedResult>)
    ensures forall d :: d in AllPairs(results) ==>
      exists i, j :: 0 <= i < j < |results| && d == Link(results[i].id, results[j].id)
    decreases |results|
  {
    if results != [] {
      var k := |results| - 1;
      var init := results[..k];
      AllPairsOnly(init);
      var earlier, links := AllPairs(init), LinksTo(init, results[k]);
      LinksToAt(init, results[k]);
      forall d | d in earlier + links
        ensures exists i, j :: 0 <= i < j < |results| && d == Link(results[i].id, results[j].id)
      {
        if d in earlier {
          var i, j :| 0 <= i < j < |init| && d == Link(init[i].id, init[j].id);
          assert d == Link(results[i].id, results[j].id);
        } else {
          var i :| 0 <= i < |links| && links[i] == d;
          assert d == Link(results[i].id, results[k].id);
        }
      }
    }
  }

  /**
   * A batch of results that all carry the URL `u`, which the normaliser
   * leaves as it is, with distinct ids, over a store holding no result
   * with that URL.
   */
  ghost predicate SameUrlBatch(before: seq<ProcessedResult>, created: seq<ProcessedResult>, u: string,
                               normalize: string -> string)
  {
    && normalize(u) == u
    && (forall p :: p in before ==> p.url != u)
    && (forall i :: 0 <= i < |created| ==> created[i].url == u)
    && (forall i, j :: 0 <= i < j < |created| ==> created[i].id != created[j].id)
  }

  /**
   * Same-URL results are linked pairwise and to nothing else: each pair
   * exactly once, when its later member is processed.
   */
  lemma {:induction false} SameUrlLinksAllPairs(before: seq<ProcessedResult>, created: seq<ProcessedResult>, u: string,
                                                normalize: string -> string)
    requires SameUrlBatch(before, created, u, normalize)
    ensures BatchLinks(before, created, normalize) == AllPairs(created)
    decreases |created|
  {
    if created != [] {
      var k := |created| - 1;
      LastMatchesEarlier(before, created, u, normalize);
      SameUrlLinksAllPairs(before, created[..k], u, normalize);
    }
  }

  /**
   * k results sharing a URL `v` that the normaliser changes are never
   * linked to each other: each is looked up under the re-normalised URL,
   * which none of them carries.
   */
  lemma {:induction false} BatchLinksNonCanonical(before: seq<ProcessedResult>, created: seq<ProcessedResult>, v: string,
                                                  normalize: string -> string)
    requires normalize(v) != v
    requires forall p :: p in before ==> p.url != normalize(v)
    requires forall i :: 0 <= i < |created| ==> created[i].url == v
    ensures BatchLinks(before, created, normalize) == []
    decreases |created|
  {
    if created != [] {
      var k := |created| - 1;
      BatchLinksNonCanonical(before, created[..k], v, normalize);
      forall p | p in before + created
        ensures !IsDuplicateOf(p, created[k], normalize)
      {
        if p !in before {
          var i :| 0 <= i < |created| && created[i] == p;
        }
      }
      MatchingNone(before + created, created[k], normalize);
    }
  }

  /** Results numbered from `firstId` pair every two of those ids once, the smaller one primary. */
  lemma AllPairsOfConsecutiveIds(created: seq<ProcessedResult>, firstId: Id)
    requires forall i :: 0 <= i < |created| ==> created[i].id == firstId + i
    ensures |AllPairs(created)| == |created| * (|created| - 1) / 2
    ensures forall a, b :: firstId <= a < b < firstId + |created| ==> Link(a, b) in AllPairs(created)
    ensures forall d :: d in AllPairs(created) ==>
      firstId <= d.primaryResultId < d.duplicateResultId < firstId + |created| && d.duplicateType == "url_match"
  {
    AllPairsCount(created);
    AllPairsLinked(created);
    AllPairsOnly(created);
    forall a, b | firstId <= a < b < firstId + |created|
      ensures Link(a, b) in AllPairs(created)
    {
      assert created[a - firstId].id == a && created[b - firstId].id == b;
    }
  }

  lemma CreatedSameUrlLinks(before: seq<ProcessedResult>, batch: seq<RawSearchResult>, firstId: Id, sessionId: Id,
                            urls: UrlFunctions, clock: nat -> string, u: string)
    requires urls.normalize(u) == u
    requires forall i :: 0 <= i < |batch| ==> urls.normalize(batch[i].url) == u
    requires forall p :: p in before ==> p.url != u
    ensures var created := Created(batch, firstId, sessionId, urls, clock);
      BatchLinks(before, created, urls.normalize) == AllPairs(created)
  {
    CreatedIdsAndUrls(batch, firstId, sessionId, urls, clock);
    SameUrlLinksAllPairs(before, Created(batch, firstId, sessionId, urls, clock), u, urls.normalize);
  }

  /**
   * Raw results whose URLs all normalise to one URL `u` the normaliser
   * leaves as it is, processed over a store holding no result with that
   * URL, yield k(k-1)/2 relationships: every pair of the new ids once, the
   * earlier id primary.
   */
  lemma SameUrlRawBatch(before: seq<ProcessedResult>, batch: seq<RawSearchResult>, firstId: Id, sessionId: Id,
                        urls: UrlFunctions, clock: nat -> string, u: string)
    requires urls.normalize(u) == u
    requires forall i :: 0 <= i < |batch| ==> urls.normalize(batch[i].url) == u
    requires forall p :: p in before ==> p.url != u
    ensures var links := BatchLinks(before, Created(batch, firstId, sessionId, urls, clock), urls.normalize);
      && |links| == |batch| * (|batch| - 1) / 2
      && (forall a, b :: firstId <= a < b < firstId + |batch| ==> Link(a, b) in links)
      && (forall d :: d in links ==>
            firstId <= d.primaryResultId < d.duplicateResultId < firstId + |batch| && d.duplicateType == "url_match")
  {
    CreatedSameUrlLinks(before, batch, firstId, sessionId, urls, clock, u);
    CreatedIdsAndUrls(batch, firstId, sessionId, urls, clock);
    AllPairsOfConsecutiveIds(Created(batch, firstId, sessionId, urls, clock), firstId);
  }

  /** The same for the source's normaliser: `u` must be canonical. */
  lemma SameNormalizedUrlBatch(before: seq<ProcessedResult>, batch: seq<RawSearchResult>, firstId: Id, sessionId: Id,
                               parse: UrlParser, clock: nat -> string, u: string)
    requires IsCanonical(u)
    requires forall i :: 0 <= i < |batch| ==> NormalizeUrl(batch[i].url) == u
    requires forall p :: p in before ==> p.url != u
    ensures var urls := SourceUrlFunctions(parse);
      var links := BatchLinks(before, Created(batch, firstId, sessionId, urls, clock), urls.normalize);
      && |links| == |batch| * (|batch| - 1) / 2
      && (forall a, b :: firstId <= a < b < firstId + |batch| ==> Link(a, b) in links)
  {
    NormalizeFixpoint(u);
    SameUrlRawBatch(before, batch, firstId, sessionId, SourceUrlFunctions(parse), clock, u);
  }

  /**
   * Because normalisation is not idempotent, k results with the URL
   * `h//` (for a canonical host `h`) are stored under `h/` but looked up
   * under `h`, so none of them is linked to another.
   */
  lemma DoubleSlashBatchUnlinked(before: seq<ProcessedResult>, batch: seq<RawSearchResult>, firstId: Id,
                                 sessionId: Id, parse: UrlParser, clock: nat -> string, h: string)
    requires IsCanonical(h) && h != [] && ':' !in h
    requires forall i :: 0 <= i < |batch| ==> batch[i].url == h + "//"
    requires forall p :: p in before ==> p.url != h
    ensures var urls := SourceUrlFunctions(parse);
      BatchLinks(before, Created(batch, firstId, sessionId, urls, clock), urls.normalize) == []
  {
    var urls := SourceUrlFunctions(parse);
    var created := Created(batch, firstId, sessionId, urls, clock);
    CreatedAt(batch, firstId, sessionId, urls, clock);
    NormalizeNotIdempotent(h);
    BatchLinksNonCanonical(before, created, h + "/", urls.normalize);
  }

  /** After a complete run, running again finds nothing to process. */
  lemma RerunFindsNothing(raw: seq<RawSearchResult>, queries: map<Id, SearchQuery>, sessionId: Id,
                          processed: seq<ProcessedResult>, firstId: Id, urls: UrlFunctions, clock: nat -> string)
    ensures var batch := Unprocessed(raw, queries, sessionId, processed);
      Unprocessed(raw, queries, sessionId, processed + Created(batch, firstId, sessionId, urls, clock)) == []
  {
    var batch := Unprocessed(raw, queries, sessionId, processed);
    var created := Created(batch, firstId, sessionId, urls, clock);
    CreatedAt(batch, firstId, sessionId, urls, clock);
    forall r | r in batch
      ensures HasProcessed(r, processed + created)
    {
      var i :| 0 <= i < |batch| && batch[i] == r;
      assert (processed + created)[|processed| + i] == created[i];
    }
    var again := Unprocessed(raw, queries, sessionId, processed + created);
    assert forall r :: r !in again;
    NoMembersEmpty(again);
  }
}
