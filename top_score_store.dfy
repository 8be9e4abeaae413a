/** Persisting top-score results under
    users/<uid>/top_score/<jd_id>/candidates/<candidate_id>: a batch save
    that overwrites each candidate document, and a single-candidate upsert
    that creates the job-description document when it is missing and
    refreshes only the score and identity fields of an existing candidate. */
module TopScoreStore {
  import opened Values
  import opened DocStore

  /** users/<uid>/top_score/<jd_id> */
  function JdPath(uid: string, jdId: string): Path
  {
    ["users", uid, "top_score", jdId]
  }

  /** users/<uid>/top_score/<jd_id>/candidates/<candidate_id> */
  function CandidateDocPath(uid: string, jdId: string, cid: string): Path
  {
    JdPath(uid, jdId) + ["candidates", cid]
  }

  /** `candidate.get("candidate_id")` */
  function IdOf(c: Record): Value
  {
    Get(c, "candidate_id", Null)
  }

  /** Entries without a truthy `candidate_id` are passed over. */
  predicate Skipped(c: Record)
  {
    !Truthy(IdOf(c))
  }

  /** A truthy id that is not a string cannot name a document: the client
      library refuses it with an error. */
  predicate BadId(c: Record)
  {
    Truthy(IdOf(c)) && !IdOf(c).Str?
  }

  const BadIdError: string := "document id must be a string"

  /** The store after the batch save has handled the entries `cs` in order,
      and whether it stopped at an entry with a bad id. */
  function SaveResults(docs: map<Path, Record>, uid: string, jdId: string, cs: seq<Record>): (map<Path, Record>, Outcome<string>)
  {
    if cs == [] then (docs, Pass)
    else
      var before := SaveResults(docs, uid, jdId, cs[..|cs| - 1]);
      var c := cs[|cs| - 1];
      if before.1.Fail? then before
      else if Skipped(c) then before
      else if BadId(c) then (before.0, Fail(BadIdError))
      else (before.0[CandidateDocPath(uid, jdId, IdOf(c).s) := c], Pass)
  }

  /** What saving the entries one at a time reports: the bad-id error when
      some entry has a truthy id that is not a string, else nothing. */
  function SaveFailure(cs: seq<Record>): Option<string>
  {
    if exists i :: 0 <= i < |cs| && BadId(cs[i]) then Some(BadIdError) else None
  }

  /** The save fails exactly when some entry has a truthy id that is not a
      string, and then with the bad-id error. */
  lemma {:induction false} SaveResultsFails(docs: map<Path, Record>, uid: string, jdId: string, cs: seq<Record>)
    ensures SaveResults(docs, uid, jdId, cs).1.Fail? <==> exists i :: 0 <= i < |cs| && BadId(cs[i])
    ensures SaveResults(docs, uid, jdId, cs).1 == (if SaveFailure(cs).Some? then Fail(BadIdError) else Pass)
  {
    if cs != [] {
      var init := cs[..|cs| - 1];
      SaveResultsFails(docs, uid, jdId, init);
      assert forall i :: 0 <= i < |init| ==> init[i] == cs[i];
      if exists i :: 0 <= i < |cs| && BadId(cs[i]) {
        var i :| 0 <= i < |cs| && BadId(cs[i]);
        if i < |init| { assert BadId(init[i]); }
      }
    }
  }

  /** Once the save has stopped, later entries change nothing. */
  lemma {:induction false} SaveResultsStops(docs: map<Path, Record>, uid: string, jdId: string, cs: seq<Record>, n: nat)
    requires n <= |cs| && SaveResults(docs, uid, jdId, cs[..n]).1.Fail?
    ensures SaveResults(docs, uid, jdId, cs) == SaveResults(docs, uid, jdId, cs[..n])
    decreases |cs| - n
  {
    if n < |cs| {
      assert cs[..|cs| - 1][..n] == cs[..n];
      SaveResultsStops(docs, uid, jdId, cs[..|cs| - 1], n);
    } else {
      assert cs[..n] == cs;
    }
  }

  /** With no entry stopping the save, a candidate's document holds the
      last entry that carries its id: earlier duplicates are overwritten. */
  lemma {:induction false} SaveResultsLastWins(docs: map<Path, Record>, uid: string, jdId: string, cs: seq<Record>, i: nat)
    requires SaveResults(docs, uid, jdId, cs).1.Pass?
    requires i < |cs| && !Skipped(cs[i])
    requires forall j :: i < j < |cs| && !Skipped(cs[j]) ==> IdOf(cs[j]) != IdOf(cs[i])
    ensures IdOf(cs[i]).Str?
    ensures var p := CandidateDocPath(uid, jdId, IdOf(cs[i]).s);
      p in SaveResults(docs, uid, jdId, cs).0 && SaveResults(docs, uid, jdId, cs).0[p] == cs[i]
  {
    SaveResultsFails(docs, uid, jdId, cs);
    var init := cs[..|cs| - 1];
    if i < |cs| - 1 {
      assert forall j :: 0 <= j < |init| ==> init[j] == cs[j];
      SaveResultsLastWins(docs, uid, jdId, init, i);
      var c := cs[|cs| - 1];
      if !Skipped(c) {
        assert IdOf(c) != IdOf(cs[i]);
        assert CandidateDocPath(uid, jdId, IdOf(c).s)[5] == IdOf(c).s;
      }
    }
  }

  /** A document that no saved entry names is as before; in particular a
      skipped entry writes nothing. */
  lemma {:induction false} SaveResultsElsewhere(docs: map<Path, Record>, uid: string, jdId: string, cs: seq<Record>, p: Path)
    requires forall i :: 0 <= i < |cs| && !Skipped(cs[i]) && IdOf(cs[i]).Str? ==> p != CandidateDocPath(uid, jdId, IdOf(cs[i]).s)
    ensures p in SaveResults(docs, uid, jdId, cs).0 <==> p in docs
    ensures p in docs ==> SaveResults(docs, uid, jdId, cs).0[p] == docs[p]
  {
    if cs != [] {
      var init := cs[..|cs| - 1];
      assert forall i :: 0 <= i < |init| ==> init[i] == cs[i];
      SaveResultsElsewhere(docs, uid, jdId, init, p);
    }
  }

  /** `save_topscore_results_to_firestore`: each entry with an id is written
      whole over its candidate document, in order. */
  method SaveTopscoreResults(uid: string, jdId: string, results: seq<Record>, db: Firestore) returns (r: Outcome<string>)
    modifies db
    ensures (db.docs, r) == SaveResults(old(db.docs), uid, jdId, results)
    ensures |db.ops| >= |old(db.ops)| && db.ops[..|old(db.ops)|] == old(db.ops)
    ensures forall k :: |old(db.ops)| <= k < |db.ops| ==> db.ops[k].SetOp?
  {
    var i := 0;
    while i < |results|
      invariant 0 <= i <= |results|
      invariant (db.docs, Pass) == SaveResults(old(db.docs), uid, jdId, results[..i])
      invariant |db.ops| >= |old(db.ops)| && db.ops[..|old(db.ops)|] == old(db.ops)
      invariant forall k :: |old(db.ops)| <= k < |db.ops| ==> db.ops[k].SetOp?
    {
      var candidate := results[i];
      assert results[..i + 1][..i] == results[..i];
      var candidateId := Get(candidate, "candidate_id", Null);
      if !Truthy(candidateId) {
        i := i + 1;
        continue;
      }
      if !candidateId.Str? {
        SaveResultsStops(old(db.docs), uid, jdId, results, i + 1);
        return Fail(BadIdError);
      }
      db.Set(CandidateDocPath(uid, jdId, candidateId.s), candidate);
      i := i + 1;
    }
    assert results[..|results|] == results;
    r := Pass;
  }

  const ScoreFields: set<string> := {"total_score", "skills_score", "experience_score", "education_score",
                                     "certifications_score", "resume_url", "name", "email"}

  /** The fields an existing candidate document gets: the eight score and
      identity fields (null where the candidate lacks one) and the update
      time. */
  function RefreshFields(c: Record): (f: Record)
    ensures f.Keys == ScoreFields + {"updated_at"}
    ensures forall k :: k in ScoreFields ==> f[k] == Get(c, k, Null)
    ensures f["updated_at"] == ServerTimestamp
  {
    map["total_score" := Get(c, "total_score", Null),
        "skills_score" := Get(c, "skills_score", Null),
        "experience_score" := Get(c, "experience_score", Null),
        "education_score" := Get(c, "education_score", Null),
        "certifications_score" := Get(c, "certifications_score", Null),
        "resume_url" := Get(c, "resume_url", Null),
        "name" := Get(c, "name", Null),
        "email" := Get(c, "email", Null),
        "updated_at" := ServerTimestamp]
  }

  /** The job-description document created when it is missing. */
  function NewJdDoc(jdId: string): Record
  {
    map["jd_id" := Str(jdId), "created_at" := ServerTimestamp]
  }

  /** The store after the upsert of `c`, when `c` has a string id. */
  function Upserted(docs: map<Path, Record>, uid: string, jdId: string, c: Record): map<Path, Record>
    requires IdOf(c).Str?
  {
    var jd := JdPath(uid, jdId);
    var withJd := if jd in docs then docs else docs[jd := NewJdDoc(jdId)];
    var p := CandidateDocPath(uid, jdId, IdOf(c).s);
    if p in withJd then withJd[p := withJd[p] + RefreshFields(c)]
    else withJd[p := c["created_at" := ServerTimestamp]]
  }

  /** `save_candidate_topscore_to_firestore`. Without an id nothing is read
      or written. Otherwise the job-description document is read and created
      if missing; a bad id then fails; a good one is read and either
      refreshed or created. */
  method SaveCandidateTopscore(uid: string, jdId: string, candidate: Record, db: Firestore) returns (r: Outcome<string>)
    modifies db
    ensures Skipped(candidate) ==> r == Pass && db.docs == old(db.docs) && db.ops == old(db.ops)
    ensures BadId(candidate) ==>
      && r == Fail(BadIdError)
      && db.docs == (if JdPath(uid, jdId) in old(db.docs) then old(db.docs)
                     else old(db.docs)[JdPath(uid, jdId) := NewJdDoc(jdId)])
    ensures IdOf(candidate).Str? && !Skipped(candidate) ==>
      r == Pass && db.docs == Upserted(old(db.docs), uid, jdId, candidate)
  {
    var candidateId := Get(candidate, "candidate_id", Null);
    if !Truthy(candidateId) {
      return Pass;
    }
    var jdRef := JdPath(uid, jdId);
    var jdSnapshot := db.Get(jdRef);
    if jdSnapshot.None? {
      db.Set(jdRef, NewJdDoc(jdId));
    }
    if !candidateId.Str? {
      return Fail(BadIdError);
    }
    var candidateRef := CandidateDocPath(uid, jdId, candidateId.s);
    var existing := db.Get(candidateRef);
    if existing.Some? {
      var _ := db.Update(candidateRef, RefreshFields(candidate));
    } else {
      db.Set(candidateRef, candidate["created_at" := ServerTimestamp]);
    }
    r := Pass;
  }

  /** The upsert touches two documents at most: the job description's and
      the candidate's. */
  lemma UpsertElsewhere(docs: map<Path, Record>, uid: string, jdId: string, c: Record, p: Path)
    requires IdOf(c).Str?
    requires p != JdPath(uid, jdId) && p != CandidateDocPath(uid, jdId, IdOf(c).s)
    ensures p in Upserted(docs, uid, jdId, c) <==> p in docs
    ensures p in docs ==> Upserted(docs, uid, jdId, c)[p] == docs[p]
  {
  }

  /** An existing job-description document is left as it was. */
  lemma UpsertKeepsJd(docs: map<Path, Record>, uid: string, jdId: string, c: Record)
    requires IdOf(c).Str? && JdPath(uid, jdId) in docs
    ensures Upserted(docs, uid, jdId, c)[JdPath(uid, jdId)] == docs[JdPath(uid, jdId)]
  {
    assert CandidateDocPath(uid, jdId, IdOf(c).s) != JdPath(uid, jdId) by {
      assert |CandidateDocPath(uid, jdId, IdOf(c).s)| == 6;
    }
  }

  /** An existing candidate document keeps every field the refresh does
      not name, such as `score_breakdown`, and gets the candidate's values
      for the eight fields it does. */
  lemma UpsertRefreshesOnly(docs: map<Path, Record>, uid: string, jdId: string, c: Record, field: string)
    requires IdOf(c).Str? && CandidateDocPath(uid, jdId, IdOf(c).s) in docs
    ensures var p := CandidateDocPath(uid, jdId, IdOf(c).s);
      var after := Upserted(docs, uid, jdId, c)[p];
      && (field in ScoreFields ==> after[field] == Get(c, field, Null))
      && (field !in ScoreFields && field != "updated_at" ==>
            (field in after <==> field in docs[p]) && (field in docs[p] ==> after[field] == docs[p][field]))
  {
    var p := CandidateDocPath(uid, jdId, IdOf(c).s);
    assert p != JdPath(uid, jdId) by { assert |p| == 6; }
    var f := RefreshFields(c);
    if field !in ScoreFields && field != "updated_at" {
      assert field !in f;
    }
  }

  /** A new candidate document holds every field of the candidate, and the
      creation time. */
  lemma UpsertCreatesWhole(docs: map<Path, Record>, uid: string, jdId: string, c: Record)
    requires IdOf(c).Str? && CandidateDocPath(uid, jdId, IdOf(c).s) !in docs
    ensures Upserted(docs, uid, jdId, c)[CandidateDocPath(uid, jdId, IdOf(c).s)] == c["created_at" := ServerTimestamp]
  {
  }

  /** The eight refreshed fields all present in the candidate. */
  predicate HasScoreFields(c: Record)
  {
    forall k :: k in ScoreFields ==> k in c
  }

  /** Repeating the upsert with the same candidate changes nothing but the
      `updated_at` field of the candidate document, provided the candidate
      carries all eight refreshed fields. */
  lemma UpsertRepeat(docs: map<Path, Record>, uid: string, jdId: string, c: Record, p: Path, field: string)
    requires IdOf(c).Str? && HasScoreFields(c)
    requires field != "updated_at"
    ensures var once := Upserted(docs, uid, jdId, c);
      var twice := Upserted(once, uid, jdId, c);
      && (p in twice <==> p in once)
      && (p in once && p != CandidateDocPath(uid, jdId, IdOf(c).s) ==> twice[p] == once[p])
      && (p == CandidateDocPath(uid, jdId, IdOf(c).s) ==>
            (field in twice[p] <==> field in once[p]) && (field in once[p] ==> twice[p][field] == once[p][field]))
  {
    var cp := CandidateDocPath(uid, jdId, IdOf(c).s);
    assert cp != JdPath(uid, jdId) by { assert |cp| == 6; }
    var once := Upserted(docs, uid, jdId, c);
    var f := RefreshFields(c);
    if cp in docs {
      var d := docs[cp];
      assert once[cp] == d + f;
      assert forall k :: k in f ==> (d + f + f)[k] == (d + f)[k];
    } else {
      assert once[cp] == c["created_at" := ServerTimestamp];
      if field in ScoreFields {
        assert field in c && field in once[cp];
        assert once[cp][field] == c[field] == Get(c, field, Null);
      }
    }
  }

  /** Without all eight fields the repeat is not a no-op: a field the
      candidate lacks is absent after the first call, which creates the
      document, and null after the second, which refreshes it. */
  lemma UpsertRepeatAddsNull(docs: map<Path, Record>, uid: string, jdId: string, c: Record, field: string)
    requires IdOf(c).Str? && CandidateDocPath(uid, jdId, IdOf(c).s) !in docs
    requires field in ScoreFields && field !in c
    ensures var p := CandidateDocPath(uid, jdId, IdOf(c).s);
      var once := Upserted(docs, uid, jdId, c);
      var twice := Upserted(once, uid, jdId, c);
      field !in once[p] && twice[p][field] == Null
  {
    var p := CandidateDocPath(uid, jdId, IdOf(c).s);
    assert p != JdPath(uid, jdId) by { assert |p| == 6; }
    assert field != "created_at";
  }
}
