/** Firebase set-up and bearer-token checking. The Admin SDK itself is an
    oracle: `verify` stands for `auth.verify_id_token`, and the environment
    variables and the file system are parameters. */
module FirebaseConfig {
  import opened Values
  import opened PyStr

  /** What `auth.verify_id_token` does with a token: decode it to a uid, or
      raise one of its errors (any other exception, such as a missing uid
      claim, is `OtherFailure`). */
  datatype TokenCheck =
    | Verified(uid: string)
    | ExpiredToken
    | InvalidToken
    | OtherFailure(message: string)

  const BearerPrefix: string := "Bearer "

  /** `auth_header.split("Bearer ")[1]`, for a header that starts with the
      prefix. */
  function BearerToken(header: string): string
    requires StartsWith(header, BearerPrefix)
  {
    SplitOn(header, BearerPrefix)[1]
  }

  /** The token is what follows the prefix, cut at the next "Bearer "
      occurrence if there is one. */
  lemma BearerTokenIsFirstPiece(header: string)
    requires StartsWith(header, BearerPrefix)
    ensures var rest := header[|BearerPrefix|..]; var t := BearerToken(header);
      && |t| <= |rest| && rest[..|t|] == t
      && (forall i :: 0 <= i < |t| ==> !StartsWith(rest[i..], BearerPrefix))
      && (|t| == |rest| || StartsWith(rest[|t|..], BearerPrefix))
  {
    FirstPieceIsPrefix(header[|BearerPrefix|..], BearerPrefix);
  }

  /** `verify_firebase_token`: the uid of a valid bearer token; every
      failure is a 401. */
  function VerifyFirebaseToken(header: Option<string>, verify: string -> TokenCheck): (r: Result<string, HttpError>)
    ensures r.Err? ==> r.error.status == 401
    ensures header.None? || header.value == "" ==> r.Err?
    ensures header.Some? && !StartsWith(header.value, BearerPrefix) ==> r.Err?
    ensures header.Some? && StartsWith(header.value, BearerPrefix) ==>
      (r.Ok? <==> verify(BearerToken(header.value)).Verified?)
      && (r.Ok? ==> r.value == verify(BearerToken(header.value)).uid)
  {
    if header.None? || header.value == "" || !StartsWith(header.value, BearerPrefix) then
      Err(HttpError(401, "Missing or invalid Authorization header"))
    else
      match verify(BearerToken(header.value))
      case Verified(uid) => Ok(uid)
      case ExpiredToken => Err(HttpError(401, "Expired Firebase token"))
      case InvalidToken => Err(HttpError(401, "Invalid Firebase token"))
      case OtherFailure(message) => Err(HttpError(401, message))
  }

  /** What a request presents for authentication: its Authorization header
      and the token verifier. */
  datatype AuthRequest = AuthRequest(header: Option<string>, verify: string -> TokenCheck)

  function Authenticate(req: AuthRequest): Result<string, HttpError>
  {
    VerifyFirebaseToken(req.header, req.verify)
  }

  /** Where the service-account credential comes from. */
  datatype Credential = FromJson(raw: string) | FromFile(path: string)

  datatype InitError =
    | CredentialFileNotFound(path: string)  // FileNotFoundError
    | CredentialPathUnset                   // os.path.exists(None): TypeError
    | CredentialRejected(reason: string)    // json.loads, Certificate or initialize_app raised

  /** The credential choice of `initialize_firebase`: a non-empty
      FIREBASE_CREDENTIAL_JSON wins; otherwise FIREBASE_CREDENTIAL_PATH must
      name an existing file. */
  function ChooseCredential(rawJson: Option<string>, localPath: Option<string>, fileExists: string -> bool): (r: Result<Credential, InitError>)
    ensures rawJson.Some? && rawJson.value != "" ==> r == Ok(FromJson(rawJson.value))
    ensures (rawJson.None? || rawJson.value == "") ==>
      (r.Ok? <==> localPath.Some? && fileExists(localPath.value))
      && (r.Ok? ==> r.value == FromFile(localPath.value))
  {
    if rawJson.Some? && rawJson.value != "" then Ok(FromJson(rawJson.value))
    else if localPath.None? then Err(CredentialPathUnset)
    else if !fileExists(localPath.value) then Err(CredentialFileNotFound(localPath.value))
    else Ok(FromFile(localPath.value))
  }

  /** The process-wide Firebase Admin state. */
  class FirebaseAdmin {
    var app: Option<Credential>

    constructor ()
      ensures app.None?
    {
      app := None;
    }

    /** `initialize_firebase`: nothing happens when an app already exists;
        otherwise the app is initialised with the chosen credential, or the
        choice's error is raised and no app exists. `load` stands for
        decoding the raw JSON, building the certificate and initialising
        the app, which raise on malformed or unusable credentials (their
        message, or none when they succeed). */
    method InitializeFirebase(rawJson: Option<string>, localPath: Option<string>, fileExists: string -> bool,
                              load: Credential -> Option<string>)
      returns (r: Outcome<InitError>)
      modifies this
      ensures old(app).Some? ==> app == old(app) && r == Pass
      ensures old(app).None? ==>
        match ChooseCredential(rawJson, localPath, fileExists)
        case Ok(c) =>
          if load(c).Some? then app.None? && r == Fail(CredentialRejected(load(c).value))
          else app == Some(c) && r == Pass
        case Err(e) => app.None? && r == Fail(e)
    {
      if app.Some? {
        return Pass;
      }
      var choice := ChooseCredential(rawJson, localPath, fileExists);
      match choice {
        case Ok(c) =>
          var refused := load(c);
          if refused.Some? {
            return Fail(CredentialRejected(refused.value));
          }
          app := Some(c);
          r := Pass;
        case Err(e) =>
          r := Fail(e);
      }
    }
  }
}
