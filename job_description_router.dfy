/** The job-description endpoints: uploading job descriptions (store each
    file, have the model parse it, save it, pick the stored candidates that
    share a skill with it, score them and save the top scores), listing the
    stored job descriptions, and deleting one with its file. The model, the
    scoring of candidates and the random ids are oracles, given per
    uploaded file. */
module JobDescriptionRouter {
  import opened Values
  import opened FirebaseConfig
  import opened DocStore
  import opened AzureStorage
  import opened SkillOverlap
  import opened Filtering
  import opened Uploads
  import TopScoreStore

  /** users/<uid>/job_descriptions */
  function JdsPath(uid: string): Path
  {
    ["users", uid, "job_descriptions"]
  }

  /** users/<uid>/job_descriptions/<jd_id> */
  function JdDocPath(uid: string, jdId: string): Path
  {
    JdsPath(uid) + [jdId]
  }

  /** users/<uid>/candidates */
  function CandidatesPath(uid: string): Path
  {
    ["users", uid, "candidates"]
  }

  /** `jd_dict.update({"uid": ..., "jd_id": ..., "jd_url": ...})`: the
      parsed fields, with the three bookkeeping fields overriding whatever
      the model returned under those names. */
  function JdRecord(parsed: Record, uid: string, jdId: string, url: string): Record
  {
    Stamped(parsed, uid, "jd_id", jdId, "jd_url", url)
  }

  /** What the outside world does for one uploaded job description: the id
      drawn for it, whether the upload fails, the model's answer to the
      file's part, and the scoring of the matched candidates (the scoring
      model followed by `calculate_total_score`). */
  datatype JdRun = JdRun(
    jdId: string,
    uploadFault: Option<string>,
    model: Part -> Result<LlmReply, string>,
    score: (Record, seq<Record>) -> Result<seq<Record>, string>)

  function Itself(r: Record): Record
  {
    r
  }

  /** The filter loop: the candidates whose `technical_skills` share a
      skill with the job description's `required_skills`, in stream
      order. */
  method FilterCandidates(jdSkills: Value, candidates: seq<Record>) returns (r: Result<seq<Record>, string>)
    ensures r == FilterOverlapping(candidates, Itself, "technical_skills", jdSkills)
  {
    var skillsFirst := c => HasSkillOverlap(jdSkills, Get(c, "technical_skills", List([])), 1);
    r := FilterLoop(candidates, skillsFirst);
    forall i | 0 <= i < |candidates|
      ensures skillsFirst(candidates[i]) == Overlaps(Itself, "technical_skills", jdSkills)(candidates[i])
    {
      OverlapsWithSwapped(candidates[i], Itself, "technical_skills", jdSkills);
    }
    FilterSameTest(candidates, skillsFirst, Overlaps(Itself, "technical_skills", jdSkills));
  }

  /** The data of the streamed documents, without their ids. */
  function Contents(ds: seq<Doc>): (rs: seq<Record>)
    ensures |rs| == |ds| && forall k :: 0 <= k < |ds| ==> rs[k] == ds[k].data
  {
    if ds == [] then [] else [ds[0].data] + Contents(ds[1..])
  }

  /** An entry of the upload reply's `results`. */
  datatype JdEntry =
    | JdParsed(filename: string, jdId: string, parsedData: Record)
    | JdFailed(filename: string, error: string)

  /** Whether the first part of an iteration stores the job description:
      the upload succeeds, the file's part can be built, the model answers
      and its reply decodes to an object. */
  predicate StoreSucceeds(f: UploadFile, run: JdRun)
  {
    && run.uploadFault.None? && FilePart(f).Ok?
    && run.model(FilePart(f).value).Ok? && run.model(FilePart(f).value).value.decoded.Some?
  }

  /** The record stored for a job description that was parsed. */
  function StoredJd(uid: string, container: BlobContainer, f: UploadFile, run: JdRun): Record
    requires StoreSucceeds(f, run)
  {
    JdRecord(run.model(FilePart(f).value).value.decoded.value, uid, run.jdId, FileUrl(container, uid, run.jdId, f))
  }

  /** The text of the exception that stops an iteration before anything is
      stored: the first step that fails names it, a model failure being
      raised as an HTTP 500. */
  function StoreError(f: UploadFile, run: JdRun): string
    requires !StoreSucceeds(f, run)
  {
    if run.uploadFault.Some? then "Failed to upload resume to Azure: " + run.uploadFault.value
    else if FilePart(f).Err? then FilePart(f).error
    else if run.model(FilePart(f).value).Err? then Describe(HttpError(500, run.model(FilePart(f).value).error))
    else ModelOutputError
  }

  /** The candidates the filter keeps, for a given stream of them. */
  function Found(jdDict: Record, listing: seq<Doc>): Result<seq<Record>, string>
  {
    FilterOverlapping(Contents(listing), Itself, "technical_skills", Get(jdDict, "required_skills", List([])))
  }

  /** What the second part of an iteration reports for a given stream of
      the candidates: the overlap test's error, the scoring's error, or the
      save's bad-id error; nothing when no candidate matches or every step
      succeeds. */
  function MatchFailure(jdDict: Record, run: JdRun, listing: seq<Doc>): Option<string>
  {
    var found := Found(jdDict, listing);
    if found.Err? then Some(found.error)
    else if found.value == [] then None
    else if run.score(jdDict, found.value).Err? then Some(run.score(jdDict, found.value).error)
    else TopScoreStore.SaveFailure(run.score(jdDict, found.value).value)
  }

  /** The entries one file contributes, given the stream of the candidates
      it was matched against: the error that stopped it before the job
      description was stored; or the stored record, followed by an error
      exactly when matching, scoring or saving fails afterwards. */
  predicate EntriesFor(uid: string, container: BlobContainer, f: UploadFile, run: JdRun, listing: seq<Doc>, es: seq<JdEntry>)
  {
    if StoreSucceeds(f, run) then
      es == StoredEntries(f.filename, run.jdId, StoredJd(uid, container, f, run),
                          MatchFailure(StoredJd(uid, container, f, run), run, listing))
    else
      es == [JdFailed(f.filename, StoreError(f, run))]
  }

  /** What the upload loop records for one file handled against the store
      `docs` it started from: its entries, and the stream of the candidates
      it was matched against when its job description was stored. */
  ghost predicate Handled(uid: string, container: BlobContainer, docs: map<Path, Record>, f: UploadFile, run: JdRun,
                          listing: seq<Doc>, es: seq<JdEntry>)
  {
    && EntriesFor(uid, container, f, run, listing, es)
    && (StoreSucceeds(f, run) ==> IsListing(docs, CandidatesPath(uid), listing))
  }

  lemma HandledSnoc(uid: string, container: BlobContainer, docs: map<Path, Record>, files: seq<UploadFile>, runs: seq<JdRun>,
                    listings: seq<seq<Doc>>, perFile: seq<seq<JdEntry>>, listing: seq<Doc>, es: seq<JdEntry>)
    requires |listings| == |perFile| < |files| <= |runs|
    requires forall j {:trigger perFile[j]} :: 0 <= j < |perFile| ==>
      Handled(uid, container, docs, files[j], runs[j], listings[j], perFile[j])
    requires Handled(uid, container, docs, files[|perFile|], runs[|perFile|], listing, es)
    ensures forall j {:trigger (perFile + [es])[j]} :: 0 <= j < |perFile| + 1 ==>
      Handled(uid, container, docs, files[j], runs[j], (listings + [listing])[j], (perFile + [es])[j])
  {
  }

  /** The loop stops at the first file that stops the request. */
  lemma StopsExtend(uid: string, container: BlobContainer, docs: map<Path, Record>, files: seq<UploadFile>, runs: seq<JdRun>,
                    i: nat, noMatch: bool)
    requires i < |files| && i < |runs|
    requires forall j :: 0 <= j < i ==> !Stops(uid, container, docs, files[j], runs[j])
    requires Stops(uid, container, docs, files[i], runs[i]) <==> noMatch
    ensures forall j :: 0 <= j < i + 1 ==> (Stops(uid, container, docs, files[j], runs[j]) <==> noMatch && j == i)
  {
  }

  /** A path of a document directly in `uid`'s candidates collection. */
  predicate IsCandidatePath(uid: string, p: Path)
  {
    |p| == 4 && p[..3] == CandidatesPath(uid)
  }

  /** No stored candidate of `uid` shares a skill with `jdSkills`, and the
      overlap test raises on none of them: the condition under which the
      filter comes out empty, whatever order the candidates stream in. */
  predicate MatchesNone(docs: map<Path, Record>, uid: string, jdSkills: Value)
  {
    forall p :: p in docs && IsCandidatePath(uid, p) ==>
      HasSkillOverlap(jdSkills, Get(docs[p], "technical_skills", List([])), 1) == Ok(false)
  }

  /** The candidate documents of `uid` are the same in both stores. */
  ghost predicate SameCandidates(before: map<Path, Record>, after: map<Path, Record>, uid: string)
  {
    SameCollection(before, after, CandidatesPath(uid))
  }

  /** The file ends the request: its job description is stored and matches
      no candidate in `docs`. */
  predicate Stops(uid: string, container: BlobContainer, docs: map<Path, Record>, f: UploadFile, run: JdRun)
  {
    StoreSucceeds(f, run) && MatchesNone(docs, uid, Get(StoredJd(uid, container, f, run), "required_skills", List([])))
  }

  /** Whether the overlap test rejects, without raising, every candidate
      of a listing. */
  predicate RejectsAll(listing: seq<Doc>, jdSkills: Value)
  {
    forall k :: 0 <= k < |listing| ==>
      HasSkillOverlap(jdSkills, Get(listing[k].data, "technical_skills", List([])), 1) == Ok(false)
  }

  /** The filter over any listing of the candidates is empty exactly when
      no stored candidate matches, so the early exit does not depend on the
      stream order. */
  lemma ListingMatchesNone(docs: map<Path, Record>, uid: string, listing: seq<Doc>, jdSkills: Value)
    requires IsListing(docs, CandidatesPath(uid), listing)
    ensures FilterOverlapping(Contents(listing), Itself, "technical_skills", jdSkills) == Ok([])
        <==> MatchesNone(docs, uid, jdSkills)
  {
    var cs := Contents(listing);
    var keep := Overlaps(Itself, "technical_skills", jdSkills);
    FilterNothing(cs, keep);
    forall k | 0 <= k < |cs|
      ensures keep(cs[k]) == HasSkillOverlap(jdSkills, Get(listing[k].data, "technical_skills", List([])), 1)
    {
      OverlapsWithSwapped(cs[k], Itself, "technical_skills", jdSkills);
    }
    if MatchesNone(docs, uid, jdSkills) {
      NoneRejectedListed(docs, uid, listing, jdSkills);
    } else if RejectsAll(listing, jdSkills) {
      ListedRejectedNone(docs, uid, listing, jdSkills);
    }
  }

  lemma NoneRejectedListed(docs: map<Path, Record>, uid: string, listing: seq<Doc>, jdSkills: Value)
    requires IsListing(docs, CandidatesPath(uid), listing) && MatchesNone(docs, uid, jdSkills)
    ensures RejectsAll(listing, jdSkills)
  {
    forall k | 0 <= k < |listing|
      ensures HasSkillOverlap(jdSkills, Get(listing[k].data, "technical_skills", List([])), 1) == Ok(false)
    {
      var p := CandidatesPath(uid) + [listing[k].id];
      assert p[..3] == CandidatesPath(uid);
      assert p in docs && IsCandidatePath(uid, p) && docs[p] == listing[k].data;
    }
  }

  lemma ListedRejectedNone(docs: map<Path, Record>, uid: string, listing: seq<Doc>, jdSkills: Value)
    requires IsListing(docs, CandidatesPath(uid), listing) && RejectsAll(listing, jdSkills)
    ensures MatchesNone(docs, uid, jdSkills)
  {
    var coll := CandidatesPath(uid);
    forall p | p in docs && IsCandidatePath(uid, p)
      ensures HasSkillOverlap(jdSkills, Get(docs[p], "technical_skills", List([])), 1) == Ok(false)
    {
      assert p[..|coll|] == coll;
      assert p[3] in Children(docs, coll);
      var k :| 0 <= k < |listing| && listing[k].id == p[3];
      assert coll + [listing[k].id] == p;
    }
  }

  /** Storing a job description leaves the candidates as they were. */
  lemma SetJdKeepsCandidates(docs: map<Path, Record>, uid: string, jdId: string, jd: Record)
    ensures SameCandidates(docs, docs[JdDocPath(uid, jdId) := jd], uid)
  {
    forall p | InCollection(p, CandidatesPath(uid))
      ensures p != JdDocPath(uid, jdId)
    {
      assert p[2] == p[..3][2];
    }
  }

  /** Saving top scores leaves the candidates as they were. */
  lemma SaveKeepsCandidates(docs: map<Path, Record>, uid: string, jdId: string, cs: seq<Record>)
    ensures SameCandidates(docs, TopScoreStore.SaveResults(docs, uid, jdId, cs).0, uid)
  {
    forall p | InCollection(p, CandidatesPath(uid))
      ensures p in TopScoreStore.SaveResults(docs, uid, jdId, cs).0 <==> p in docs
      ensures p in docs ==> TopScoreStore.SaveResults(docs, uid, jdId, cs).0[p] == docs[p]
    {
      forall i | 0 <= i < |cs| && !TopScoreStore.Skipped(cs[i]) && TopScoreStore.IdOf(cs[i]).Str?
        ensures p != TopScoreStore.CandidateDocPath(uid, jdId, TopScoreStore.IdOf(cs[i]).s)
      {
        assert |TopScoreStore.CandidateDocPath(uid, jdId, TopScoreStore.IdOf(cs[i]).s)| == 6;
      }
      TopScoreStore.SaveResultsElsewhere(docs, uid, jdId, cs, p);
    }
  }

  /** Whether a file stops the request depends only on the candidates. */
  lemma SameCandidatesStops(before: map<Path, Record>, after: map<Path, Record>, uid: string,
                            container: BlobContainer, f: UploadFile, run: JdRun)
    requires SameCandidates(before, after, uid)
    ensures Stops(uid, container, before, f, run) <==> Stops(uid, container, after, f, run)
  {
    if StoreSucceeds(f, run) {
      MatchesNoneSame(before, after, uid, Get(StoredJd(uid, container, f, run), "required_skills", List([])));
    }
  }

  lemma MatchesNoneSame(before: map<Path, Record>, after: map<Path, Record>, uid: string, jdSkills: Value)
    requires SameCandidates(before, after, uid)
    ensures MatchesNone(before, uid, jdSkills) <==> MatchesNone(after, uid, jdSkills)
  {
  }

  /** The URL of a file uploaded for `uid` under `id`. */
  function FileUrl(container: BlobContainer, uid: string, id: string, f: UploadFile): string
  {
    BlobUrl(container.account, container.name, BlobName(uid, id, f.filename))
  }

  /** The first part of an iteration of the upload loop: upload the file,
      have the model parse it and store the decoded reply with its
      bookkeeping fields. A model failure is raised as an HTTP 500 and
      caught by the loop's handler, so its message is the exception's
      text. */
  method StoreJd(uid: string, f: UploadFile, run: JdRun, db: Firestore, container: BlobContainer)
    returns (r: Result<Record, string>)
    modifies db, container
    ensures r.Ok? <==> StoreSucceeds(f, run)
    ensures r.Err? ==> r.error == StoreError(f, run) && db.docs == old(db.docs) && db.ops == old(db.ops)
    ensures r.Ok? ==>
      && r.value == StoredJd(uid, container, f, run)
      && db.docs == old(db.docs)[JdDocPath(uid, run.jdId) := r.value]
      && db.ops == old(db.ops) + [SetOp(JdDocPath(uid, run.jdId), r.value)]
    ensures container.blobs == Uploaded(old(container.blobs), uid, f, run)
  {
    var jdId := run.jdId;
    var upload := container.UploadResumeToAzure(uid, jdId, f.filename, f.content, Some(ContentTypeOrPdf(f)), run.uploadFault);
    if upload.Err? {
      return Err(upload.error);
    }
    var jdUrl := upload.value;
    var part := FilePart(f);
    if part.Err? {
      return Err(part.error);
    }
    var response := run.model(part.value);
    if response.Err? {
      return Err(Describe(HttpError(500, response.error)));
    }
    var decoded := response.value.decoded;
    if decoded.None? {
      return Err(ModelOutputError);
    }
    var jdDict := JdRecord(decoded.value, uid, jdId, jdUrl);
    db.Set(JdDocPath(uid, jdId), jdDict);
    r := Ok(jdDict);
  }

  /** The second part: read the stored candidates, keep those sharing a
      skill with the job description, score them and save the top scores.
      Reports a failure, or that no candidate matched. Only top-score
      documents are written. */
  method MatchAndScore(uid: string, jdId: string, jdDict: Record, run: JdRun, db: Firestore)
    returns (failure: Option<string>, noMatch: bool, ghost listing: seq<Doc>)
    modifies db
    ensures IsListing(old(db.docs), CandidatesPath(uid), listing)
    ensures failure == MatchFailure(jdDict, run, listing)
    ensures noMatch <==> Found(jdDict, listing) == Ok([])
    ensures noMatch ==> failure.None?
    ensures noMatch <==> MatchesNone(old(db.docs), uid, Get(jdDict, "required_skills", List([])))
    ensures var found := Found(jdDict, listing);
      if found.Ok? && found.value != [] && run.score(jdDict, found.value).Ok? then
        db.docs == TopScoreStore.SaveResults(old(db.docs), uid, jdId, run.score(jdDict, found.value).value).0
      else db.docs == old(db.docs)
    ensures SameCandidates(old(db.docs), db.docs, uid)
    ensures JdDocPath(uid, jdId) in old(db.docs) ==>
      JdDocPath(uid, jdId) in db.docs && db.docs[JdDocPath(uid, jdId)] == old(db.docs)[JdDocPath(uid, jdId)]
  {
    failure := None;
    noMatch := false;
    var docs := db.Stream(CandidatesPath(uid));
    listing := docs;
    var candidateList: seq<Record> := [];
    var i := 0;
    while i < |docs|
      invariant 0 <= i <= |docs|
      invariant candidateList == Contents(docs[..i])
    {
      assert docs[..i + 1] == docs[..i] + [docs[i]];
      assert Contents(docs[..i + 1]) == Contents(docs[..i]) + [docs[i].data];
      candidateList := candidateList + [docs[i].data];
      i := i + 1;
    }
    assert docs[..|docs|] == docs;
    var jdSkills := Get(jdDict, "required_skills", List([]));
    var filtered := FilterCandidates(jdSkills, candidateList);
    ListingMatchesNone(db.docs, uid, docs, jdSkills);
    if filtered.Err? {
      return Some(filtered.error), noMatch, listing;
    }
    if filtered.value == [] {
      return None, true, listing;
    }
    var topscoreResults := run.score(jdDict, filtered.value);
    if topscoreResults.Err? {
      return Some(topscoreResults.error), noMatch, listing;
    }
    ghost var before := db.docs;
    var saved := TopScoreStore.SaveTopscoreResults(uid, jdId, topscoreResults.value, db);
    TopScoreStore.SaveResultsElsewhere(before, uid, jdId, topscoreResults.value, JdDocPath(uid, jdId));
    TopScoreStore.SaveResultsFails(before, uid, jdId, topscoreResults.value);
    SaveKeepsCandidates(before, uid, jdId, topscoreResults.value);
    if saved.Fail? {
      return Some(saved.error), noMatch, listing;
    }
  }

  /** One iteration of the upload loop: the entries it appends, and whether
      it ends the request because no stored candidate shares a skill with
      the job description. Candidates are never written. */
  method ProcessJd(uid: string, f: UploadFile, run: JdRun, db: Firestore, container: BlobContainer)
    returns (entries: seq<JdEntry>, noMatch: bool, ghost listing: seq<Doc>)
    modifies db, container
    ensures Handled(uid, container, old(db.docs), f, run, listing, entries)
    ensures noMatch <==> Stops(uid, container, old(db.docs), f, run)
    ensures noMatch ==> |entries| == 1
    ensures SameCandidates(old(db.docs), db.docs, uid)
    ensures !StoreSucceeds(f, run) ==> db.docs == old(db.docs) && db.ops == old(db.ops)
    ensures container.blobs == Uploaded(old(container.blobs), uid, f, run)
    ensures StoreSucceeds(f, run) ==>
      JdDocPath(uid, run.jdId) in db.docs && db.docs[JdDocPath(uid, run.jdId)] == StoredJd(uid, container, f, run)
  {
    noMatch := false;
    listing := [];
    ghost var start := db.docs;
    var stored := StoreJd(uid, f, run, db, container);
    if stored.Err? {
      return [JdFailed(f.filename, stored.error)], noMatch, listing;
    }
    var jdDict := stored.value;
    SetJdKeepsCandidates(start, uid, run.jdId, jdDict);
    MatchesNoneSame(start, db.docs, uid, Get(jdDict, "required_skills", List([])));
    ghost var stored' := db.docs;
    entries, noMatch, listing := MatchStoredJd(uid, f.filename, run, jdDict, db);
    ListingOfSame(start, stored', CandidatesPath(uid), listing);
    SameCollectionTrans(start, stored', db.docs, CandidatesPath(uid));
  }

  /** The entries of a file whose job description `jdDict` was stored:
      its record, then an error if matching, scoring or saving failed. */
  function StoredEntries(filename: string, jdId: string, jdDict: Record, failure: Option<string>): seq<JdEntry>
  {
    [JdParsed(filename, jdId, jdDict)] + (if failure.Some? then [JdFailed(filename, failure.value)] else [])
  }

  /** The rest of an iteration once the job description is stored. */
  method MatchStoredJd(uid: string, filename: string, run: JdRun, jdDict: Record, db: Firestore)
    returns (entries: seq<JdEntry>, noMatch: bool, ghost listing: seq<Doc>)
    modifies db
    ensures IsListing(old(db.docs), CandidatesPath(uid), listing)
    ensures entries == StoredEntries(filename, run.jdId, jdDict, MatchFailure(jdDict, run, listing))
    ensures noMatch <==> MatchesNone(old(db.docs), uid, Get(jdDict, "required_skills", List([])))
    ensures noMatch ==> |entries| == 1
    ensures SameCandidates(old(db.docs), db.docs, uid)
    ensures JdDocPath(uid, run.jdId) in old(db.docs) ==>
      JdDocPath(uid, run.jdId) in db.docs && db.docs[JdDocPath(uid, run.jdId)] == old(db.docs)[JdDocPath(uid, run.jdId)]
  {
    var failure;
    failure, noMatch, listing := MatchAndScore(uid, run.jdId, jdDict, run, db);
    entries := [JdParsed(filename, run.jdId, jdDict)];
    if failure.Some? {
      entries := entries + [JdFailed(filename, failure.value)];
    }
  }

  /** The container after one file's upload: stored under its blob name
      unless the upload failed. */
  function Uploaded(blobs: map<string, Blob>, uid: string, f: UploadFile, run: JdRun): map<string, Blob>
  {
    if run.uploadFault.None? then blobs[BlobName(uid, run.jdId, f.filename) := Blob(f.content, ContentTypeOrPdf(f))]
    else blobs
  }

  /** The container after the first `n` files were uploaded. */
  function UploadedBlobs(blobs: map<string, Blob>, uid: string, files: seq<UploadFile>, runs: seq<JdRun>, n: nat): map<string, Blob>
    requires n <= |files| && n <= |runs|
  {
    if n == 0 then blobs
    else Uploaded(UploadedBlobs(blobs, uid, files, runs, n - 1), uid, files[n - 1], runs[n - 1])
  }

  /** Concatenation of the per-file entry lists. */
  function Flatten(groups: seq<seq<JdEntry>>): seq<JdEntry>
  {
    if groups == [] then [] else Flatten(groups[..|groups| - 1]) + groups[|groups| - 1]
  }

  lemma FlattenSnoc(groups: seq<seq<JdEntry>>, g: seq<JdEntry>)
    ensures Flatten(groups + [g]) == Flatten(groups) + g
  {
    assert (groups + [g])[..|groups|] == groups;
  }

  /** The reply: the per-file results, or the fixed text returned as soon
      as a job description matches no stored candidate. */
  datatype JdUploadReply =
    | Completed(status: string, uid: string, results: seq<JdEntry>)
    | PlainText(text: string)

  const NoMatchText: string := "matching candidates found for the given JD."
  const InternalError: HttpError := HttpError(500, "Internal Server Error")

  /** `upload_multiple_jds`. Authentication and the weight initialisation
      (`initWeights`, opaque here) come first, outside the `try`. Files are
      then handled in order (`handled` of them), each adding one or two
      entries. A job description that matches no stored candidate ends the
      request at once with a fixed text: the entries gathered so far are
      dropped and the later files are never uploaded. */
  method UploadMultipleJds(auth: AuthRequest, files: seq<UploadFile>, runs: seq<JdRun>, initWeights: Outcome<string>,
                           db: Firestore, container: BlobContainer)
    returns (r: Result<JdUploadReply, HttpError>, ghost handled: nat, ghost perFile: seq<seq<JdEntry>>,
             ghost listings: seq<seq<Doc>>)
    requires |runs| == |files|
    modifies db, container
    ensures Authenticate(auth).Err? ==>
      r == Err(Authenticate(auth).error)
      && db.docs == old(db.docs) && db.ops == old(db.ops) && container.blobs == old(container.blobs)
    ensures Authenticate(auth).Ok? && initWeights.Fail? ==>
      r == Err(InternalError)
      && db.docs == old(db.docs) && db.ops == old(db.ops) && container.blobs == old(container.blobs)
    ensures Authenticate(auth).Ok? && initWeights.Pass? ==>
      var uid := Authenticate(auth).value;
      && r.Ok?
      && handled <= |files| && |perFile| == handled && |listings| == handled
      && container.blobs == UploadedBlobs(old(container.blobs), uid, files, runs, handled)
      && (forall i {:trigger perFile[i]} :: 0 <= i < handled ==>
            && EntriesFor(uid, container, files[i], runs[i], listings[i], perFile[i])
            && (StoreSucceeds(files[i], runs[i]) ==> IsListing(old(db.docs), CandidatesPath(uid), listings[i])))
      && (forall i :: 0 <= i < handled ==>
            (Stops(uid, container, old(db.docs), files[i], runs[i]) <==> r.value.PlainText? && i == handled - 1))
      && (r.value.Completed? ==>
            handled == |files| && r.value.status == "completed" && r.value.uid == uid
            && r.value.results == Flatten(perFile))
      && (r.value.PlainText? ==> r.value.text == NoMatchText && handled >= 1)
  {
    handled := 0;
    perFile := [];
    listings := [];
    var auth := Authenticate(auth);
    if auth.Err? {
      return Err(auth.error), handled, perFile, listings;
    }
    var uid := auth.value;
    if initWeights.Fail? {
      return Err(InternalError), handled, perFile, listings;
    }
    var results, noMatch;
    results, noMatch, perFile, listings := ProcessJds(uid, files, runs, db, container);
    handled := |perFile|;
    if noMatch {
      return Ok(PlainText(NoMatchText)), handled, perFile, listings;
    }
    r := Ok(Completed("completed", uid, results));
  }

  /** The upload loop: the entries of the files handled, in order (the
      groups in `perFile`), up to and including the first file whose job
      description matches no stored candidate, if any (`noMatch`). The
      candidates are read as they were when the request came in, since the
      loop never writes them. */
  method ProcessJds(uid: string, files: seq<UploadFile>, runs: seq<JdRun>, db: Firestore, container: BlobContainer)
    returns (results: seq<JdEntry>, noMatch: bool, ghost perFile: seq<seq<JdEntry>>, ghost listings: seq<seq<Doc>>)
    requires |runs| == |files|
    modifies db, container
    ensures |perFile| <= |files| && |listings| == |perFile|
    ensures container.blobs == UploadedBlobs(old(container.blobs), uid, files, runs, |perFile|)
    ensures SameCandidates(old(db.docs), db.docs, uid)
    ensures forall i {:trigger perFile[i]} :: 0 <= i < |perFile| ==>
      Handled(uid, container, old(db.docs), files[i], runs[i], listings[i], perFile[i])
    ensures forall i :: 0 <= i < |perFile| ==>
      (Stops(uid, container, old(db.docs), files[i], runs[i]) <==> noMatch && i == |perFile| - 1)
    ensures !noMatch ==> |perFile| == |files| && results == Flatten(perFile)
    ensures noMatch ==> |perFile| >= 1
  {
    results := [];
    noMatch := false;
    perFile := [];
    listings := [];
    var i := 0;
    while i < |files| && !noMatch
      invariant 0 <= i <= |files| && |perFile| == i && |listings| == i
      invariant container.blobs == UploadedBlobs(old(container.blobs), uid, files, runs, i)
      invariant SameCandidates(old(db.docs), db.docs, uid)
      invariant forall j {:trigger perFile[j]} :: 0 <= j < i ==>
        Handled(uid, container, old(db.docs), files[j], runs[j], listings[j], perFile[j])
      invariant forall j :: 0 <= j < i ==>
        (Stops(uid, container, old(db.docs), files[j], runs[j]) <==> noMatch && j == i - 1)
      invariant !noMatch ==> results == Flatten(perFile)
      invariant noMatch ==> i >= 1
    {
      ghost var before := db.docs;
      var entries;
      ghost var listing;
      entries, noMatch, listing := ProcessJd(uid, files[i], runs[i], db, container);
      SameCandidatesStops(old(db.docs), before, uid, container, files[i], runs[i]);
      if StoreSucceeds(files[i], runs[i]) {
        ListingOfSame(old(db.docs), before, CandidatesPath(uid), listing);
      }
      SameCollectionTrans(old(db.docs), before, db.docs, CandidatesPath(uid));
      StopsExtend(uid, container, old(db.docs), files, runs, i, noMatch);
      FlattenSnoc(perFile, entries);
      HandledSnoc(uid, container, old(db.docs), files, runs, listings, perFile, listing, entries);
      perFile := perFile + [entries];
      listings := listings + [listing];
      if !noMatch {
        results := results + entries;
      }
      i := i + 1;
    }
  }

  /** The listing reply. */
  datatype ListReply = ListReply(status: string, uid: string, items: seq<Record>)

  const FetchErrorPrefix: string := "Error fetching JDs: "

  /** `get_job_descriptions`. Authentication runs inside the `try`, so its
      401 reaches the client as a 500. Each stored job description is
      returned with `id` set to its document id, in stream order. */
  method GetJobDescriptions(auth: AuthRequest, db: Firestore) returns (r: Result<ListReply, HttpError>, ghost listing: seq<Doc>)
    modifies db
    ensures db.docs == old(db.docs)
    ensures Authenticate(auth).Err? ==>
      r == Err(HttpError(500, FetchErrorPrefix + Describe(Authenticate(auth).error))) && db.ops == old(db.ops)
    ensures Authenticate(auth).Ok? ==>
      && IsListing(db.docs, JdsPath(Authenticate(auth).value), listing)
      && db.ops == old(db.ops) + [StreamOp(JdsPath(Authenticate(auth).value))]
      && r == Ok(ListReply("success", Authenticate(auth).value, Tagged(listing, "id")))
  {
    listing := [];
    var auth := Authenticate(auth);
    if auth.Err? {
      return Err(HttpError(500, FetchErrorPrefix + Describe(auth.error))), listing;
    }
    var uid := auth.value;
    var docs := db.Stream(JdsPath(uid));
    listing := docs;
    var jdList := WithIds(docs, "id");
    r := Ok(ListReply("success", uid, jdList));
  }

  const DeleteErrorPrefix: string := "Error deleting JD: "
  const JdNotFound: HttpError := HttpError(404, "Job Description not found")
  const UrlNotString: string := "urlparse expects a string"

  /** `delete_job_description`. Every failure, including the 401 and the
      404 for a missing job description, is re-raised as a 500. The stored
      file is deleted (at the path recovered from its URL) only when
      `jd_url` is truthy, and the document only after that succeeds. */
  method DeleteJobDescription(auth: AuthRequest, jdId: string, db: Firestore, container: BlobContainer,
                              fault: Option<string>)
    returns (r: Result<Record, HttpError>)
    modifies db, container
    ensures Authenticate(auth).Err? ==>
      && r == Err(HttpError(500, DeleteErrorPrefix + Describe(Authenticate(auth).error)))
      && db.docs == old(db.docs) && db.ops == old(db.ops) && container.blobs == old(container.blobs)
    ensures Authenticate(auth).Ok? ==>
      var path := JdDocPath(Authenticate(auth).value, jdId);
      if path !in old(db.docs) then
        && r == Err(HttpError(500, DeleteErrorPrefix + Describe(JdNotFound)))
        && db.docs == old(db.docs) && db.ops == old(db.ops) + [GetOp(path)]
        && container.blobs == old(container.blobs)
      else
        var url := Get(old(db.docs)[path], "jd_url", Null);
        if !Truthy(url) then
          && r == Ok(map["status" := Str("success"),
                         "message" := Str("Job Description " + jdId + " and associated file deleted successfully")])
          && db.docs == old(db.docs) - {path} && db.ops == old(db.ops) + [GetOp(path), DeleteOp(path)]
          && container.blobs == old(container.blobs)
        else if !url.Str? then
          && r == Err(HttpError(500, DeleteErrorPrefix + UrlNotString))
          && db.docs == old(db.docs) && db.ops == old(db.ops) + [GetOp(path)]
          && container.blobs == old(container.blobs)
        else
          var blobPath := BlobPathOf(url.s, container.name);
          if blobPath !in old(container.blobs) || fault.Some? then
            && r.Err? && r.error.status == 500
            && db.docs == old(db.docs) && container.blobs == old(container.blobs)
          else
            && r.Ok?
            && db.docs == old(db.docs) - {path} && db.ops == old(db.ops) + [GetOp(path), DeleteOp(path)]
            && container.blobs == old(container.blobs) - {blobPath}
  {
    var auth := Authenticate(auth);
    if auth.Err? {
      return Err(HttpError(500, DeleteErrorPrefix + Describe(auth.error)));
    }
    var uid := auth.value;
    var jdDocRef := JdDocPath(uid, jdId);
    var docSnapshot := db.Get(jdDocRef);
    if docSnapshot.None? {
      return Err(HttpError(500, DeleteErrorPrefix + Describe(JdNotFound)));
    }
    var jdData := docSnapshot.value;
    var jdUrl := Get(jdData, "jd_url", Null);
    if Truthy(jdUrl) {
      if !jdUrl.Str? {
        return Err(HttpError(500, DeleteErrorPrefix + UrlNotString));
      }
      var blobPath := BlobPathOf(jdUrl.s, container.name);
      var deleted := container.DeleteResumeFromAzure(blobPath, fault);
      if deleted.Fail? {
        return Err(HttpError(500, DeleteErrorPrefix + deleted.error));
      }
    }
    db.Delete(jdDocRef);
    r := Ok(map["status" := Str("success"),
                "message" := Str("Job Description " + jdId + " and associated file deleted successfully")]);
  }
}
