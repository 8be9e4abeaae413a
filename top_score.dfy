/** The top-score listing of one job description: the stored candidate
    documents, each tagged with its id, ranked by `total_score` from high to
    low. Python's `list.sort` is stable, also with `reverse=True`, so
    candidates with equal scores keep the order in which the store listed
    them; `SortDesc` is a stable insertion sort with those properties. */
module TopScore {
  import opened Values
  import opened FirebaseConfig
  import opened DocStore
  import Scoring

  /** `x.get("total_score", 0)` as a number, when it is one. */
  function SortKey(r: Record): Option<real>
  {
    Scoring.ScoreValue(Get(r, "total_score", Num(0.0)))
  }

  /** The ranking key of a record whose score is a number. */
  function Key(r: Record): real
  {
    if SortKey(r).Some? then SortKey(r).value else 0.0
  }

  /** Whether the sort can compare the records: a single record is never
      compared; two or more need numeric scores. */
  predicate Comparable(rs: seq<Record>)
  {
    |rs| <= 1 || forall k :: 0 <= k < |rs| ==> SortKey(rs[k]).Some?
  }

  /** `x` placed in front of the first record whose key is not above its
      own. */
  function Insert(x: Record, s: seq<Record>): seq<Record>
  {
    if s == [] || Key(x) >= Key(s[0]) then [x] + s
    else [s[0]] + Insert(x, s[1..])
  }

  /** `rs.sort(key=..., reverse=True)`. */
  function SortDesc(rs: seq<Record>): seq<Record>
  {
    if rs == [] then [] else Insert(rs[0], SortDesc(rs[1..]))
  }

  predicate Descending(s: seq<Record>)
  {
    forall i, j :: 0 <= i < j < |s| ==> Key(s[i]) >= Key(s[j])
  }

  /** The records of `s` whose key is `v`, in order. */
  function WithKey(s: seq<Record>, v: real): seq<Record>
  {
    if s == [] then []
    else (if Key(s[0]) == v then [s[0]] else []) + WithKey(s[1..], v)
  }

  lemma {:induction false} InsertPerm(x: Record, s: seq<Record>)
    ensures multiset(Insert(x, s)) == multiset(s) + multiset{x}
  {
    if s != [] && Key(x) < Key(s[0]) {
      InsertPerm(x, s[1..]);
      assert s == [s[0]] + s[1..];
    }
  }

  lemma {:induction false} InsertDescending(x: Record, s: seq<Record>)
    requires Descending(s)
    ensures Descending(Insert(x, s))
  {
    if s != [] && Key(x) < Key(s[0]) {
      var tail := Insert(x, s[1..]);
      InsertDescending(x, s[1..]);
      InsertPerm(x, s[1..]);
      forall j | 0 <= j < |tail|
        ensures Key(s[0]) >= Key(tail[j])
      {
        assert tail[j] in multiset(tail);
        if tail[j] != x {
          assert tail[j] in multiset(s[1..]);
          var m :| 0 <= m < |s[1..]| && s[1..][m] == tail[j];
          assert s[m + 1] == tail[j];
        }
      }
    }
  }

  /** Inserting changes the records of one key only by putting `x` first
      among them. */
  lemma {:induction false} InsertWithKey(x: Record, s: seq<Record>, v: real)
    ensures WithKey(Insert(x, s), v) == (if Key(x) == v then [x] else []) + WithKey(s, v)
  {
    if s == [] || Key(x) >= Key(s[0]) {
      assert ([x] + s)[1..] == s;
    } else {
      InsertWithKey(x, s[1..], v);
      assert ([s[0]] + Insert(x, s[1..]))[1..] == Insert(x, s[1..]);
    }
  }

  /** The ranking is a rearrangement of its input. */
  lemma {:induction false} SortDescPerm(rs: seq<Record>)
    ensures multiset(SortDesc(rs)) == multiset(rs)
  {
    if rs != [] {
      SortDescPerm(rs[1..]);
      InsertPerm(rs[0], SortDesc(rs[1..]));
      assert rs == [rs[0]] + rs[1..];
    }
  }

  /** The ranking is non-increasing in the score. */
  lemma {:induction false} SortDescDescending(rs: seq<Record>)
    ensures Descending(SortDesc(rs))
  {
    if rs != [] {
      SortDescDescending(rs[1..]);
      InsertDescending(rs[0], SortDesc(rs[1..]));
    }
  }

  /** The ranking is stable: the records sharing a score appear in the
      order of the input. */
  lemma {:induction false} SortDescStable(rs: seq<Record>, v: real)
    ensures WithKey(SortDesc(rs), v) == WithKey(rs, v)
  {
    if rs != [] {
      SortDescStable(rs[1..], v);
      InsertWithKey(rs[0], SortDesc(rs[1..]), v);
    }
  }

  /** users/<uid>/top_score/<jd_id>/candidates */
  function CandidatesCollection(uid: string, jdId: string): Path
  {
    ["users", uid, "top_score", jdId, "candidates"]
  }

  /** The reply body: the job description id and the ranked candidates. */
  datatype TopScoreReply = TopScoreReply(jdId: string, topScoreCandidates: seq<Record>)

  const FetchErrorPrefix: string := "Error fetching top score data: "
  const NotFoundError: HttpError := HttpError(404, "No top score candidates found.")
  const UncomparableScores: string := "'<' not supported between instances"

  /** `get_top_score_candidates`. Authentication failures and an empty uid
      are 401s before the store is read. Inside the `try`, every failure,
      including the 404 for an empty listing, becomes a 500. Otherwise the
      reply echoes `jdId` and holds the stored candidates, each with
      `candidate_id` set to its document id, ranked by score, stably. */
  method GetTopScoreCandidates(jdId: string, auth: AuthRequest, db: Firestore)
    returns (r: Result<TopScoreReply, HttpError>, ghost listing: seq<Doc>)
    modifies db
    ensures db.docs == old(db.docs)
    ensures Authenticate(auth).Err? ==> r == Err(Authenticate(auth).error) && db.ops == old(db.ops)
    ensures Authenticate(auth) == Ok("") ==> r == Err(HttpError(401, "Unauthorized")) && db.ops == old(db.ops)
    ensures Authenticate(auth).Ok? && Authenticate(auth).value != "" ==>
      var coll := CandidatesCollection(Authenticate(auth).value, jdId);
      var found := Tagged(listing, "candidate_id");
      && IsListing(db.docs, coll, listing)
      && db.ops == old(db.ops) + [StreamOp(coll)]
      && (!Comparable(found) ==> r == Err(HttpError(500, FetchErrorPrefix + UncomparableScores)))
      && (Comparable(found) && found == [] ==> r == Err(HttpError(500, FetchErrorPrefix + Describe(NotFoundError))))
      && (Comparable(found) && found != [] ==> r == Ok(TopScoreReply(jdId, SortDesc(found))))
    ensures r.Ok? ==>
      && r.value.jdId == jdId
      && Descending(r.value.topScoreCandidates)
      && multiset(r.value.topScoreCandidates) == multiset(Tagged(listing, "candidate_id"))
      && (forall v :: WithKey(r.value.topScoreCandidates, v) == WithKey(Tagged(listing, "candidate_id"), v))
  {
    listing := [];
    var auth := Authenticate(auth);
    if auth.Err? {
      return Err(auth.error), listing;
    }
    var uid := auth.value;
    if uid == "" {
      return Err(HttpError(401, "Unauthorized")), listing;
    }
    var ds := db.Stream(CandidatesCollection(uid, jdId));
    listing := ds;
    var result := WithIds(ds, "candidate_id");
    if !Comparable(result) {
      return Err(HttpError(500, FetchErrorPrefix + UncomparableScores)), listing;
    }
    result := SortDesc(result);
    SortDescDescending(Tagged(ds, "candidate_id"));
    SortDescPerm(Tagged(ds, "candidate_id"));
    forall v | true
      ensures WithKey(result, v) == WithKey(Tagged(ds, "candidate_id"), v)
    {
      SortDescStable(Tagged(ds, "candidate_id"), v);
    }
    if result == [] {
      return Err(HttpError(500, FetchErrorPrefix + Describe(NotFoundError))), listing;
    }
    r := Ok(TopScoreReply(jdId, result));
  }

  /** The ranking is empty, and the reply the 500, exactly when the
      collection holds no candidate documents. */
  lemma EmptyCollectionIsError(docs: map<Path, Record>, coll: Path, listing: seq<Doc>)
    requires IsListing(docs, coll, listing)
    ensures Tagged(listing, "candidate_id") == [] <==> Children(docs, coll) == {}
  {
    if listing != [] {
      var p := coll + [listing[0].id];
      assert p[..|coll|] == coll;
      assert listing[0].id in Children(docs, coll);
    }
  }
}
