/** The per-user scoring-weight endpoints: the sum-to-100 check on an
    update request, the role-to-weights map read back from the user's
    `score_weights` documents, and the update of one role's weights. */
module ScoreWeights {
  import opened Values
  import opened FirebaseConfig
  import opened DocStore
  import opened WeightSum

  const WeightsSumMessage: string := "Weights must sum up to 100."

  /** `WeightUpdateRequest.validate_total`: a 400 exactly when the weights
      do not add up to 100, so an empty map is refused too. */
  method ValidateTotal(weights: map<string, int>) returns (r: Outcome<HttpError>)
    ensures r == Pass <==> SumValues(weights) == 100
    ensures r.Fail? ==> r.error == HttpError(400, WeightsSumMessage)
    ensures weights == map[] ==> r.Fail?
  {
    var total := Total(weights);
    if total != 100 {
      return Fail(HttpError(400, WeightsSumMessage));
    }
    r := Pass;
  }

  /** users/<uid>/score_weights */
  function WeightsCollection(uid: string): Path
  {
    ["users", uid, "score_weights"]
  }

  /** An unhandled exception in a handler: FastAPI answers 500. */
  const InternalError: HttpError := HttpError(500, "Internal Server Error")

  function RoleOf(d: Doc): Value
  {
    Get(d.data, "role", Null)
  }

  function WeightsOf(d: Doc): Value
  {
    Get(d.data, "weights", Null)
  }

  /** Whether the loop records the document: `if role and weights`. */
  predicate Kept(d: Doc)
  {
    Truthy(RoleOf(d)) && Truthy(WeightsOf(d))
  }

  /** The map `get_user_weights` builds from the documents in stream order;
      a kept document whose role cannot be a dict key raises a TypeError. */
  function CollectWeights(ds: seq<Doc>): Result<map<Value, Value>, string>
  {
    if ds == [] then Ok(map[])
    else
      var d := ds[|ds| - 1];
      match CollectWeights(ds[..|ds| - 1])
      case Err(e) => Err(e)
      case Ok(m) =>
        if !Kept(d) then Ok(m)
        else if !Hashable(RoleOf(d)) then Err("TypeError: unhashable type")
        else Ok(m[RoleOf(d) := WeightsOf(d)])
  }

  /** The map fails to build exactly when some kept document has an
      unhashable role. */
  lemma {:induction false} CollectWeightsFails(ds: seq<Doc>)
    ensures CollectWeights(ds).Err? <==> exists i :: 0 <= i < |ds| && Kept(ds[i]) && !Hashable(RoleOf(ds[i]))
  {
    if ds != [] {
      var init := ds[..|ds| - 1];
      CollectWeightsFails(init);
      assert forall i :: 0 <= i < |init| ==> init[i] == ds[i];
      if exists i :: 0 <= i < |ds| && Kept(ds[i]) && !Hashable(RoleOf(ds[i])) {
        var i :| 0 <= i < |ds| && Kept(ds[i]) && !Hashable(RoleOf(ds[i]));
        if i < |init| { assert Kept(init[i]) && !Hashable(RoleOf(init[i])); }
      }
    }
  }

  /** A role is in the map exactly when some document carries it with both
      a truthy role and truthy weights: a role stored with an empty weights
      map is left out. */
  lemma {:induction false} CollectWeightsKeys(ds: seq<Doc>, role: Value)
    requires CollectWeights(ds).Ok?
    ensures role in CollectWeights(ds).value <==>
      exists i :: 0 <= i < |ds| && Kept(ds[i]) && RoleOf(ds[i]) == role
  {
    if ds != [] {
      var init := ds[..|ds| - 1];
      CollectWeightsKeys(init, role);
      assert forall i :: 0 <= i < |init| ==> init[i] == ds[i];
      if exists i :: 0 <= i < |ds| && Kept(ds[i]) && RoleOf(ds[i]) == role {
        var i :| 0 <= i < |ds| && Kept(ds[i]) && RoleOf(ds[i]) == role;
        if i < |init| { assert Kept(init[i]) && RoleOf(init[i]) == role; }
      }
    }
  }

  /** When two documents carry the same role, the later one in the stream
      wins: a role's weights are those of the last document that carries
      it. */
  lemma {:induction false} CollectWeightsLastWins(ds: seq<Doc>, i: nat)
    requires CollectWeights(ds).Ok?
    requires i < |ds| && Kept(ds[i])
    requires forall j :: i < j < |ds| && Kept(ds[j]) ==> RoleOf(ds[j]) != RoleOf(ds[i])
    ensures RoleOf(ds[i]) in CollectWeights(ds).value
    ensures CollectWeights(ds).value[RoleOf(ds[i])] == WeightsOf(ds[i])
  {
    var init := ds[..|ds| - 1];
    if i < |ds| - 1 {
      assert forall j :: 0 <= j < |init| ==> init[j] == ds[j];
      CollectWeightsLastWins(init, i);
    }
  }

  /** The reply of `get_user_weights`: `{"weights": user_weights}`. */
  datatype WeightsReply = WeightsReply(weights: map<Value, Value>)

  /** `get_user_weights`: the map built from the user's weight documents, in
      whatever order the store streams them (`listing`), under the key
      `weights`. An authentication failure reaches the store not at all. */
  method GetUserWeights(auth: AuthRequest, db: Firestore) returns (r: Result<WeightsReply, HttpError>, ghost listing: seq<Doc>)
    modifies db
    ensures db.docs == old(db.docs)
    ensures Authenticate(auth).Err? ==> r == Err(Authenticate(auth).error) && db.ops == old(db.ops)
    ensures Authenticate(auth).Ok? ==>
      var coll := WeightsCollection(Authenticate(auth).value);
      && IsListing(db.docs, coll, listing)
      && db.ops == old(db.ops) + [StreamOp(coll)]
      && r == (if CollectWeights(listing).Ok? then Ok(WeightsReply(CollectWeights(listing).value)) else Err(InternalError))
  {
    listing := [];
    var auth := Authenticate(auth);
    if auth.Err? {
      return Err(auth.error), listing;
    }
    var ds := db.Stream(WeightsCollection(auth.value));
    listing := ds;
    var userWeights: map<Value, Value> := map[];
    var i := 0;
    while i < |ds|
      invariant 0 <= i <= |ds|
      invariant CollectWeights(ds[..i]) == Ok(userWeights)
    {
      var d := ds[i];
      assert ds[..i + 1][..i] == ds[..i];
      var role := Get(d.data, "role", Null);
      var weights := Get(d.data, "weights", Null);
      if Truthy(role) && Truthy(weights) {
        if !Hashable(role) {
          CollectWeightsPrefixFails(ds, i + 1);
          return Err(InternalError), listing;
        }
        userWeights := userWeights[role := weights];
      }
      i := i + 1;
    }
    assert ds[..|ds|] == ds;
    r := Ok(WeightsReply(userWeights));
  }

  /** Once building fails on a prefix, it fails on the whole stream. */
  lemma {:induction false} CollectWeightsPrefixFails(ds: seq<Doc>, n: nat)
    requires n <= |ds| && CollectWeights(ds[..n]).Err?
    ensures CollectWeights(ds).Err?
  {
    CollectWeightsFails(ds[..n]);
    var i :| 0 <= i < n && Kept(ds[..n][i]) && !Hashable(RoleOf(ds[..n][i]));
    assert ds[i] == ds[..n][i];
    CollectWeightsFails(ds);
  }

  /** The weights of an update request as a stored value. */
  function WeightsValue(weights: map<string, int>): Value
  {
    Obj(map k | k in weights :: Num(weights[k] as real))
  }

  /** users/<uid>/score_weights/<role> */
  function RolePath(uid: string, role: string): Path
  {
    WeightsCollection(uid) + [role]
  }

  /** `update_user_weights`: authenticate, then check the sum, and only then
      look the role up. An existing role document gets its `weights` field
      replaced and nothing else in the store changes; a missing role is
      reported in the reply body and nothing is written. */
  method UpdateUserWeights(auth: AuthRequest, role: string, weights: map<string, int>, db: Firestore)
    returns (r: Result<Record, HttpError>)
    modifies db
    ensures Authenticate(auth).Err? ==>
      r == Err(Authenticate(auth).error) && db.ops == old(db.ops) && db.docs == old(db.docs)
    ensures Authenticate(auth).Ok? && SumValues(weights) != 100 ==>
      r == Err(HttpError(400, WeightsSumMessage)) && db.ops == old(db.ops) && db.docs == old(db.docs)
    ensures Authenticate(auth).Ok? && SumValues(weights) == 100 ==>
      var path := RolePath(Authenticate(auth).value, role);
      if path in old(db.docs) then
        && db.docs == old(db.docs)[path := old(db.docs)[path]["weights" := WeightsValue(weights)]]
        && db.ops == old(db.ops) + [GetOp(path), UpdateOp(path, map["weights" := WeightsValue(weights)])]
        && r == Ok(map["message" := Str("Updated weights for role '" + role + "'")])
      else
        && db.docs == old(db.docs)
        && db.ops == old(db.ops) + [GetOp(path)]
        && r == Ok(map["error" := Str("Role '" + role + "' does not exist for user: " + Authenticate(auth).value)])
  {
    var auth := Authenticate(auth);
    if auth.Err? {
      return Err(auth.error);
    }
    var uid := auth.value;
    var path := RolePath(uid, role);
    var valid := ValidateTotal(weights);
    if valid.Fail? {
      return Err(valid.error);
    }
    var snapshot := db.Get(path);
    if snapshot.Some? {
      var fields := map["weights" := WeightsValue(weights)];
      var _ := db.Update(path, fields);
      assert old(db.docs)[path] + fields == old(db.docs)[path]["weights" := WeightsValue(weights)];
      r := Ok(map["message" := Str("Updated weights for role '" + role + "'")]);
    } else {
      r := Ok(map["error" := Str("Role '" + role + "' does not exist for user: " + uid)]);
    }
  }
}
