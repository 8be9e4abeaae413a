/** The candidate endpoints: uploading resumes (store each file, have the
    model parse it, save the candidate, match it against the user's job
    descriptions and save its top scores), listing the stored candidates,
    and deleting one candidate with its resume file. The model, the scoring
    of a candidate against a job description and the random ids are
    oracles, given per uploaded file. */
module CandidatesRouter {
  import opened Values
  import opened FirebaseConfig
  import opened DocStore
  import opened AzureStorage
  import opened SkillOverlap
  import opened Filtering
  import opened Uploads
  import TopScoreStore

  /** users/<uid>/candidates */
  function CandidatesPath(uid: string): Path
  {
    ["users", uid, "candidates"]
  }

  /** users/<uid>/job_descriptions */
  function JdsPath(uid: string): Path
  {
    ["users", uid, "job_descriptions"]
  }

  /** `candidate_dict.update({"uid": ..., "candidate_id": ..., "resume_url": ...})`:
      the parsed fields, with the three bookkeeping fields overriding
      whatever the model returned under those names. */
  function CandidateRecord(parsed: Record, uid: string, candidateId: string, url: string): Record
  {
    Stamped(parsed, uid, "candidate_id", candidateId, "resume_url", url)
  }

  /** The record the handler takes from a reply: the schema-parsed object
      when the client library produced one, else `json.loads(text)`. */
  function ParsedRecord(reply: LlmReply): Option<Record>
  {
    if reply.parsed.Some? then reply.parsed else reply.decoded
  }

  /** What the outside world does for one uploaded resume: the id drawn
      for it, whether the upload fails, the model's answer to the file's
      part, and the scoring of the candidate against a matching job
      description (the scoring model followed by `calculate_total_score`),
      which yields the records to save or fails. */
  datatype ResumeRun = ResumeRun(
    candidateId: string,
    uploadFault: Option<string>,
    model: Part -> Result<LlmReply, string>,
    score: (Doc, Record) -> Result<seq<Record>, string>)

  /** Whether processing the file gets as far as a reply from the model. */
  predicate ReachedReply(f: UploadFile, run: ResumeRun)
  {
    run.uploadFault.None? && FilePart(f).Ok? && run.model(FilePart(f).value).Ok?
  }

  function ReplyOf(f: UploadFile, run: ResumeRun): LlmReply
    requires ReachedReply(f, run)
  {
    run.model(FilePart(f).value).value
  }

  /** Whether the candidate record is built and stored. */
  predicate Stored(f: UploadFile, run: ResumeRun)
  {
    ReachedReply(f, run) && ParsedRecord(ReplyOf(f, run)).Some?
  }

  /** The text of the exception that stops an iteration before the
      candidate is stored: the first step that fails names it. */
  function ResumeError(f: UploadFile, run: ResumeRun): string
    requires !Stored(f, run)
  {
    if run.uploadFault.Some? then "Failed to upload resume to Azure: " + run.uploadFault.value
    else if FilePart(f).Err? then FilePart(f).error
    else if run.model(FilePart(f).value).Err? then run.model(FilePart(f).value).error
    else ModelOutputError
  }

  function DocData(d: Doc): Record
  {
    d.data
  }

  /** The job descriptions, in stream order, that share a skill with the
      candidate. */
  function MatchedJds(candidate: Record, jdListing: seq<Doc>): Result<seq<Doc>, string>
  {
    FilterOverlapping(jdListing, DocData, "required_skills", Get(candidate, "technical_skills", List([])))
  }

  /** What scoring the candidate against the matched job descriptions, in
      order, and saving each one's entries reports: the first scoring
      error or bad-id error. */
  function JdsFailure(candidate: Record, run: ResumeRun, jds: seq<Doc>): Option<string>
  {
    if jds == [] then None
    else
      var scored := run.score(jds[0], candidate);
      if scored.Err? then Some(scored.error)
      else if TopScoreStore.SaveFailure(scored.value).Some? then TopScoreStore.SaveFailure(scored.value)
      else JdsFailure(candidate, run, jds[1..])
  }

  /** What the rest of an iteration reports once the candidate is stored,
      for a given stream of the job descriptions: the overlap test's error,
      or the first failure of scoring and saving; nothing when all of it
      succeeds. */
  function ScoreFailure(candidate: Record, run: ResumeRun, jdListing: seq<Doc>): Option<string>
  {
    var found := MatchedJds(candidate, jdListing);
    if found.Err? then Some(found.error) else JdsFailure(candidate, run, found.value)
  }

  /** Writing the candidate or a top-score document leaves the job
      descriptions as they were. */
  lemma WritesKeepJds(docs: map<Path, Record>, uid: string, candidateId: string, jdId: string, c: Record)
    ensures SameCollection(docs, docs[CandidateDocPath(uid, candidateId) := c], JdsPath(uid))
    ensures SameCollection(docs, docs[TopScoreStore.JdPath(uid, jdId) := TopScoreStore.NewJdDoc(jdId)], JdsPath(uid))
    ensures TopScoreStore.IdOf(c).Str? ==> SameCollection(docs, TopScoreStore.Upserted(docs, uid, jdId, c), JdsPath(uid))
  {
    forall p | InCollection(p, JdsPath(uid))
      ensures p != CandidateDocPath(uid, candidateId) && p != TopScoreStore.JdPath(uid, jdId)
      ensures TopScoreStore.IdOf(c).Str? ==>
        && (p in TopScoreStore.Upserted(docs, uid, jdId, c) <==> p in docs)
        && (p in docs ==> TopScoreStore.Upserted(docs, uid, jdId, c)[p] == docs[p])
    {
      assert p[2] == p[..3][2];
      if TopScoreStore.IdOf(c).Str? {
        TopScoreStore.UpsertElsewhere(docs, uid, jdId, c, p);
      }
    }
  }

  /** The matching loop: the job descriptions whose `required_skills`
      share a skill with the candidate's `technical_skills`. */
  method MatchingJds(candidate: Record, jdDocs: seq<Doc>) returns (r: Result<seq<Doc>, string>)
    ensures r == FilterOverlapping(jdDocs, DocData, "required_skills", Get(candidate, "technical_skills", List([])))
  {
    r := FilterLoop(jdDocs, Overlaps(DocData, "required_skills", Get(candidate, "technical_skills", List([]))));
  }

  /** users/<uid>/candidates/<candidate_id> */
  function CandidateDocPath(uid: string, candidateId: string): Path
  {
    CandidatesPath(uid) + [candidateId]
  }

  /** The URL of a file uploaded for `uid` under `id`. */
  function FileUrl(container: BlobContainer, uid: string, id: string, f: UploadFile): string
  {
    BlobUrl(container.account, container.name, BlobName(uid, id, f.filename))
  }

  /** The rest of the iteration once the candidate is stored: match it
      against the stored job descriptions (streamed as `jdListing`) and
      save its top scores for each match. Reports the first failure; only
      top-score documents are written, so the candidate's own document and
      the job descriptions are kept. */
  method ScoreAgainstJds(uid: string, candidateId: string, candidateDict: Record, run: ResumeRun, db: Firestore)
    returns (failure: Option<string>, ghost jdListing: seq<Doc>)
    modifies db
    ensures IsListing(old(db.docs), JdsPath(uid), jdListing)
    ensures failure == ScoreFailure(candidateDict, run, jdListing)
    ensures SameCollection(old(db.docs), db.docs, JdsPath(uid))
    ensures CandidateDocPath(uid, candidateId) in old(db.docs) ==>
      CandidateDocPath(uid, candidateId) in db.docs
      && db.docs[CandidateDocPath(uid, candidateId)] == old(db.docs)[CandidateDocPath(uid, candidateId)]
  {
    failure := None;
    var candidatePath := CandidateDocPath(uid, candidateId);
    var jdDocs := db.Stream(JdsPath(uid));
    jdListing := jdDocs;
    var matching := MatchingJds(candidateDict, jdDocs);
    if matching.Err? {
      return Some(matching.error), jdListing;
    }
    var m := 0;
    while m < |matching.value|
      invariant 0 <= m <= |matching.value|
      invariant failure.None?
      invariant JdsFailure(candidateDict, run, matching.value) == JdsFailure(candidateDict, run, matching.value[m..])
      invariant SameCollection(old(db.docs), db.docs, JdsPath(uid))
      invariant candidatePath in old(db.docs) ==>
        candidatePath in db.docs && db.docs[candidatePath] == old(db.docs)[candidatePath]
    {
      var jdDoc := matching.value[m];
      assert matching.value[m..][0] == jdDoc && matching.value[m..][1..] == matching.value[m + 1..];
      var scored := run.score(jdDoc, candidateDict);
      if scored.Err? {
        return Some(scored.error), jdListing;
      }
      ghost var before := db.docs;
      failure := SaveJdScores(uid, candidateId, jdDoc.id, scored.value, db);
      SameCollectionTrans(old(db.docs), before, db.docs, JdsPath(uid));
      if failure.Some? {
        return failure, jdListing;
      }
      m := m + 1;
    }
    assert matching.value[m..] == [];
  }

  /** The inner loop: save each scored entry under the job description,
      stopping at the first failure, which is a bad id. Neither the
      candidate's own document nor a job description is among the ones
      written. */
  method SaveJdScores(uid: string, candidateId: string, jdId: string, scores: seq<Record>, db: Firestore)
    returns (failure: Option<string>)
    modifies db
    ensures failure == TopScoreStore.SaveFailure(scores)
    ensures SameCollection(old(db.docs), db.docs, JdsPath(uid))
    ensures CandidateDocPath(uid, candidateId) in old(db.docs) ==>
      CandidateDocPath(uid, candidateId) in db.docs
      && db.docs[CandidateDocPath(uid, candidateId)] == old(db.docs)[CandidateDocPath(uid, candidateId)]
  {
    failure := None;
    var candidatePath := CandidateDocPath(uid, candidateId);
    assert candidatePath != TopScoreStore.JdPath(uid, jdId) by {
      assert candidatePath[2] != TopScoreStore.JdPath(uid, jdId)[2];
    }
    var k := 0;
    while k < |scores|
      invariant 0 <= k <= |scores|
      invariant forall j :: 0 <= j < k ==> !TopScoreStore.BadId(scores[j])
      invariant SameCollection(old(db.docs), db.docs, JdsPath(uid))
      invariant candidatePath in old(db.docs) ==>
        candidatePath in db.docs && db.docs[candidatePath] == old(db.docs)[candidatePath]
    {
      var s := scores[k];
      ghost var before := db.docs;
      WritesKeepJds(before, uid, candidateId, jdId, s);
      if TopScoreStore.IdOf(s).Str? {
        TopScoreStore.UpsertElsewhere(before, uid, jdId, s, candidatePath);
      }
      var saved := TopScoreStore.SaveCandidateTopscore(uid, jdId, s, db);
      SameCollectionTrans(old(db.docs), before, db.docs, JdsPath(uid));
      if saved.Fail? {
        return Some(saved.error);
      }
      k := k + 1;
    }
  }

  /** The record stored for a file whose candidate was parsed. */
  function StoredCandidate(uid: string, container: BlobContainer, f: UploadFile, run: ResumeRun): Record
    requires Stored(f, run)
  {
    CandidateRecord(ParsedRecord(ReplyOf(f, run)).value, uid, run.candidateId, FileUrl(container, uid, run.candidateId, f))
  }

  /** One iteration of the upload loop, up to the entry it produces: the
      stored candidate record, or the error, and the text of the model's
      reply if one was received. The job descriptions are streamed once
      the candidate is stored (`jdListing`) and never written. A candidate
      that is stored stays stored whatever fails afterwards. */
  method ProcessResume(uid: string, f: UploadFile, run: ResumeRun, db: Firestore, container: BlobContainer)
    returns (r: Result<Record, string>, replyText: Option<string>, ghost jdListing: seq<Doc>)
    modifies db, container
    ensures replyText == (if ReachedReply(f, run) then Some(ReplyOf(f, run).text) else None)
    ensures run.uploadFault.Some? ==> container.blobs == old(container.blobs)
    ensures run.uploadFault.None? ==>
      container.blobs == old(container.blobs)[BlobName(uid, run.candidateId, f.filename) :=
                                             Blob(f.content, ContentTypeOrPdf(f))]
    ensures !Stored(f, run) ==> r == Err(ResumeError(f, run)) && db.docs == old(db.docs) && db.ops == old(db.ops)
    ensures SameCollection(old(db.docs), db.docs, JdsPath(uid))
    ensures Stored(f, run) ==>
      var record := StoredCandidate(uid, container, f, run);
      && CandidateDocPath(uid, run.candidateId) in db.docs
      && db.docs[CandidateDocPath(uid, run.candidateId)] == record
      && IsListing(old(db.docs), JdsPath(uid), jdListing)
      && r == (if ScoreFailure(record, run, jdListing).Some? then Err(ScoreFailure(record, run, jdListing).value)
               else Ok(record))
  {
    jdListing := [];
    replyText := None;
    var candidateId := run.candidateId;
    var upload := container.UploadResumeToAzure(uid, candidateId, f.filename, f.content, Some(ContentTypeOrPdf(f)), run.uploadFault);
    if upload.Err? {
      return Err(upload.error), replyText, jdListing;
    }
    var resumeUrl := upload.value;
    var part := FilePart(f);
    if part.Err? {
      return Err(part.error), replyText, jdListing;
    }
    var response := run.model(part.value);
    if response.Err? {
      return Err(response.error), replyText, jdListing;
    }
    replyText := Some(response.value.text);
    var parsed := ParsedRecord(response.value);
    if parsed.None? {
      return Err(ModelOutputError), replyText, jdListing;
    }
    var candidateDict := CandidateRecord(parsed.value, uid, candidateId, resumeUrl);
    var candidatePath := CandidateDocPath(uid, candidateId);
    ghost var start := db.docs;
    db.Set(candidatePath, candidateDict);
    ghost var stored := db.docs;
    WritesKeepJds(start, uid, candidateId, "", candidateDict);
    var failure;
    failure, jdListing := ScoreAgainstJds(uid, candidateId, candidateDict, run, db);
    ListingOfSame(start, stored, JdsPath(uid), jdListing);
    SameCollectionTrans(start, stored, db.docs, JdsPath(uid));
    if failure.Some? {
      return Err(failure.value), replyText, jdListing;
    }
    r := Ok(candidateDict);
  }

  /** An entry of the upload reply's `results`. */
  datatype ResumeEntry =
    | Parsed(filename: string, candidateId: string, parsedData: Record)
    | Failed(filename: string, error: string, rawOutput: Option<string>)

  datatype UploadReply = UploadReply(status: string, uid: string, results: seq<ResumeEntry>)

  /** The text of the most recent reply among the first `n` files: what
      `locals()` still holds under `response` while file `n - 1` is
      handled. */
  function LatestReply(files: seq<UploadFile>, runs: seq<ResumeRun>, n: nat): Option<string>
    requires n <= |files| && n <= |runs|
  {
    if n == 0 then None
    else if ReachedReply(files[n - 1], runs[n - 1]) then Some(ReplyOf(files[n - 1], runs[n - 1]).text)
    else LatestReply(files, runs, n - 1)
  }

  /** The error entry of a file that failed before its own reply carries
      the reply to an earlier file: the most recent one, if any. */
  lemma {:induction false} LatestReplyLeaks(files: seq<UploadFile>, runs: seq<ResumeRun>, i: nat, j: nat)
    requires j < i < |files| && i < |runs|
    requires ReachedReply(files[j], runs[j])
    requires forall k :: j < k <= i ==> !ReachedReply(files[k], runs[k])
    ensures LatestReply(files, runs, i + 1) == Some(ReplyOf(files[j], runs[j]).text)
    decreases i - j
  {
    assert !ReachedReply(files[i], runs[i]);
    assert LatestReply(files, runs, i + 1) == LatestReply(files, runs, i);
    if i - 1 > j {
      LatestReplyLeaks(files, runs, i - 1, j);
    }
  }

  /** The reply's entry for one file, given the stream of the job
      descriptions it was matched against: the error that stopped it before
      the candidate was stored; otherwise the stored candidate record when
      matching, scoring and saving all succeed, and their first error when
      not. Every error carries `latest`, the most recent model reply. */
  predicate EntryFor(e: ResumeEntry, uid: string, container: BlobContainer, f: UploadFile, run: ResumeRun,
                     jdListing: seq<Doc>, latest: Option<string>)
  {
    if !Stored(f, run) then e == Failed(f.filename, ResumeError(f, run), latest)
    else
      var record := StoredCandidate(uid, container, f, run);
      var failure := ScoreFailure(record, run, jdListing);
      if failure.Some? then e == Failed(f.filename, failure.value, latest)
      else e == Parsed(f.filename, run.candidateId, record)
  }

  /** What the upload loop records for one file handled against the store
      `docs` it started from: its entry, and the stream of the job
      descriptions it was matched against once its candidate was stored. */
  ghost predicate Handled(e: ResumeEntry, uid: string, container: BlobContainer, docs: map<Path, Record>, f: UploadFile,
                          run: ResumeRun, jdListing: seq<Doc>, latest: Option<string>)
  {
    && EntryFor(e, uid, container, f, run, jdListing, latest)
    && (Stored(f, run) ==> IsListing(docs, JdsPath(uid), jdListing))
  }

  /** One iteration of the upload loop: process the file, then build its
      entry, an error carrying `latest`, the most recent model reply up to
      and including this file's. */
  method ResumeEntryOf(uid: string, f: UploadFile, run: ResumeRun, prev: Option<string>, db: Firestore, container: BlobContainer)
    returns (entry: ResumeEntry, latest: Option<string>, ghost jdListing: seq<Doc>)
    modifies db, container
    ensures latest == if ReachedReply(f, run) then Some(ReplyOf(f, run).text) else prev
    ensures Handled(entry, uid, container, old(db.docs), f, run, jdListing, latest)
    ensures SameCollection(old(db.docs), db.docs, JdsPath(uid))
  {
    var outcome, replyText;
    outcome, replyText, jdListing := ProcessResume(uid, f, run, db, container);
    latest := if replyText.Some? then replyText else prev;
    entry := match outcome
      case Ok(candidateDict) => Parsed(f.filename, run.candidateId, candidateDict)
      case Err(e) => Failed(f.filename, e, latest);
  }

  const InternalError: HttpError := HttpError(500, "Internal Server Error")

  /** `candidate_resumes`. Authentication and the weight initialisation
      (`initWeights`, a call this model treats as opaque) happen before the
      loop and outside its `try`. The reply then has exactly one entry per
      uploaded file, in upload order: the parsed candidate, or an error
      that carries the file name and the latest model reply so far. */
  method CandidateResumes(auth: AuthRequest, files: seq<UploadFile>, runs: seq<ResumeRun>, initWeights: Outcome<string>,
                          db: Firestore, container: BlobContainer)
    returns (r: Result<UploadReply, HttpError>, ghost jdListings: seq<seq<Doc>>)
    requires |runs| == |files|
    modifies db, container
    ensures Authenticate(auth).Err? ==>
      r == Err(Authenticate(auth).error)
      && db.docs == old(db.docs) && db.ops == old(db.ops) && container.blobs == old(container.blobs)
    ensures Authenticate(auth).Ok? && initWeights.Fail? ==>
      r == Err(InternalError)
      && db.docs == old(db.docs) && db.ops == old(db.ops) && container.blobs == old(container.blobs)
    ensures Authenticate(auth).Ok? && initWeights.Pass? ==>
      var uid := Authenticate(auth).value;
      && r.Ok? && r.value.status == "completed" && r.value.uid == uid
      && |r.value.results| == |files| && |jdListings| == |files|
      && forall i {:trigger r.value.results[i]} :: 0 <= i < |files| ==>
           Handled(r.value.results[i], uid, container, old(db.docs), files[i], runs[i], jdListings[i],
                   LatestReply(files, runs, i + 1))
  {
    jdListings := [];
    var auth := Authenticate(auth);
    if auth.Err? {
      return Err(auth.error), jdListings;
    }
    var uid := auth.value;
    if initWeights.Fail? {
      return Err(InternalError), jdListings;
    }
    var results;
    results, jdListings := ProcessResumes(uid, files, runs, db, container);
    r := Ok(UploadReply("completed", uid, results));
  }

  lemma {:induction false} HandledSnoc(uid: string, container: BlobContainer, docs: map<Path, Record>, files: seq<UploadFile>,
                    runs: seq<ResumeRun>, results: seq<ResumeEntry>, jdListings: seq<seq<Doc>>, e: ResumeEntry,
                    jdListing: seq<Doc>)
    requires |jdListings| == |results| < |files| == |runs|
    requires forall j {:trigger results[j]} :: 0 <= j < |results| ==>
      Handled(results[j], uid, container, docs, files[j], runs[j], jdListings[j], LatestReply(files, runs, j + 1))
    requires Handled(e, uid, container, docs, files[|results|], runs[|results|], jdListing,
                     LatestReply(files, runs, |results| + 1))
    ensures forall j {:trigger (results + [e])[j]} :: 0 <= j < |results| + 1 ==>
      Handled((results + [e])[j], uid, container, docs, files[j], runs[j], (jdListings + [jdListing])[j],
              LatestReply(files, runs, j + 1))
  {
    forall j | 0 <= j < |results| + 1
      ensures Handled((results + [e])[j], uid, container, docs, files[j], runs[j], (jdListings + [jdListing])[j],
                      LatestReply(files, runs, j + 1))
    {
      if j < |results| {
        assert (results + [e])[j] == results[j] && (jdListings + [jdListing])[j] == jdListings[j];
      }
    }
  }

  /** The upload loop: one entry per file, in order. The job descriptions
      are never written, so each file is matched against a stream of them
      as they were when the request came in. */
  method ProcessResumes(uid: string, files: seq<UploadFile>, runs: seq<ResumeRun>, db: Firestore, container: BlobContainer)
    returns (results: seq<ResumeEntry>, ghost jdListings: seq<seq<Doc>>)
    requires |runs| == |files|
    modifies db, container
    ensures |results| == |files| && |jdListings| == |files|
    ensures forall i {:trigger results[i]} :: 0 <= i < |files| ==>
      Handled(results[i], uid, container, old(db.docs), files[i], runs[i], jdListings[i], LatestReply(files, runs, i + 1))
  {
    results := [];
    jdListings := [];
    var response: Option<string> := None;
    var i := 0;
    while i < |files|
      invariant 0 <= i <= |files|
      invariant |results| == i && |jdListings| == i
      invariant response == LatestReply(files, runs, i)
      invariant SameCollection(old(db.docs), db.docs, JdsPath(uid))
      invariant forall j {:trigger results[j]} :: 0 <= j < i ==>
        Handled(results[j], uid, container, old(db.docs), files[j], runs[j], jdListings[j], LatestReply(files, runs, j + 1))
    {
      ghost var before := db.docs;
      var entry;
      ghost var jdListing;
      entry, response, jdListing := ResumeEntryOf(uid, files[i], runs[i], response, db, container);
      if Stored(files[i], runs[i]) {
        ListingOfSame(old(db.docs), before, JdsPath(uid), jdListing);
      }
      SameCollectionTrans(old(db.docs), before, db.docs, JdsPath(uid));
      HandledSnoc(uid, container, old(db.docs), files, runs, results, jdListings, entry, jdListing);
      results := results + [entry];
      jdListings := jdListings + [jdListing];
      i := i + 1;
    }
  }

  /** The listing reply. */
  datatype ListReply = ListReply(status: string, uid: string, items: seq<Record>)

  const FetchErrorPrefix: string := "Error fetching resumes: "

  /** `get_candidate_resumes`. Authentication runs inside the `try`, so its
      401 reaches the client as a 500. Each stored candidate is returned
      with `id` set to its document id, in stream order. */
  method GetCandidateResumes(auth: AuthRequest, db: Firestore) returns (r: Result<ListReply, HttpError>, ghost listing: seq<Doc>)
    modifies db
    ensures db.docs == old(db.docs)
    ensures Authenticate(auth).Err? ==>
      r == Err(HttpError(500, FetchErrorPrefix + Describe(Authenticate(auth).error))) && db.ops == old(db.ops)
    ensures Authenticate(auth).Ok? ==>
      && IsListing(db.docs, CandidatesPath(Authenticate(auth).value), listing)
      && db.ops == old(db.ops) + [StreamOp(CandidatesPath(Authenticate(auth).value))]
      && r == Ok(ListReply("success", Authenticate(auth).value, Tagged(listing, "id")))
  {
    listing := [];
    var auth := Authenticate(auth);
    if auth.Err? {
      return Err(HttpError(500, FetchErrorPrefix + Describe(auth.error))), listing;
    }
    var uid := auth.value;
    var docs := db.Stream(CandidatesPath(uid));
    listing := docs;
    var candidateList := WithIds(docs, "id");
    r := Ok(ListReply("success", uid, candidateList));
  }

  const DeleteErrorPrefix: string := "Error deleting candidate: "
  const CandidateNotFound: HttpError := HttpError(404, "Candidate not found")
  const UrlNotString: string := "urlparse expects a string"

  /** `delete_candidate_resume`. Every failure, including the 401 and the
      404 for a missing candidate, is re-raised as a 500. The resume blob
      is deleted (at the path recovered from its URL) only when the stored
      `resume_url` is truthy, and the document only after that succeeds. */
  method DeleteCandidateResume(auth: AuthRequest, candidateId: string, db: Firestore, container: BlobContainer,
                               fault: Option<string>)
    returns (r: Result<Record, HttpError>)
    modifies db, container
    ensures Authenticate(auth).Err? ==>
      && r == Err(HttpError(500, DeleteErrorPrefix + Describe(Authenticate(auth).error)))
      && db.docs == old(db.docs) && db.ops == old(db.ops) && container.blobs == old(container.blobs)
    ensures Authenticate(auth).Ok? ==>
      var path := CandidateDocPath(Authenticate(auth).value, candidateId);
      if path !in old(db.docs) then
        && r == Err(HttpError(500, DeleteErrorPrefix + Describe(CandidateNotFound)))
        && db.docs == old(db.docs) && db.ops == old(db.ops) + [GetOp(path)]
        && container.blobs == old(container.blobs)
      else
        var url := Get(old(db.docs)[path], "resume_url", Null);
        if !Truthy(url) then
          && r == Ok(map["status" := Str("success"),
                         "message" := Str("Candidate " + candidateId + " and resume deleted successfully")])
          && db.docs == old(db.docs) - {path} && db.ops == old(db.ops) + [GetOp(path), DeleteOp(path)]
          && container.blobs == old(container.blobs)
        else if !url.Str? then
          && r == Err(HttpError(500, DeleteErrorPrefix + UrlNotString))
          && db.docs == old(db.docs) && db.ops == old(db.ops) + [GetOp(path)]
          && container.blobs == old(container.blobs)
        else
          var blobPath := BlobPathOf(url.s, container.name);
          if blobPath !in old(container.blobs) || fault.Some? then
            && r.Err? && r.error.status == 500
            && db.docs == old(db.docs) && container.blobs == old(container.blobs)
          else
            && r.Ok?
            && db.docs == old(db.docs) - {path} && db.ops == old(db.ops) + [GetOp(path), DeleteOp(path)]
            && container.blobs == old(container.blobs) - {blobPath}
  {
    var auth := Authenticate(auth);
    if auth.Err? {
      return Err(HttpError(500, DeleteErrorPrefix + Describe(auth.error)));
    }
    var uid := auth.value;
    var candidateDocRef := CandidateDocPath(uid, candidateId);
    var docSnapshot := db.Get(candidateDocRef);
    if docSnapshot.None? {
      return Err(HttpError(500, DeleteErrorPrefix + Describe(CandidateNotFound)));
    }
    var candidateData := docSnapshot.value;
    var resumeUrl := Get(candidateData, "resume_url", Null);
    if Truthy(resumeUrl) {
      if !resumeUrl.Str? {
        return Err(HttpError(500, DeleteErrorPrefix + UrlNotString));
      }
      var blobPath := BlobPathOf(resumeUrl.s, container.name);
      var deleted := container.DeleteResumeFromAzure(blobPath, fault);
      if deleted.Fail? {
        return Err(HttpError(500, DeleteErrorPrefix + deleted.error));
      }
    }
    db.Delete(candidateDocRef);
    r := Ok(map["status" := Str("success"),
                "message" := Str("Candidate " + candidateId + " and resume deleted successfully")]);
  }
}
