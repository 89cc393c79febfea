/** The decision logic of the three HTTP handlers of server.js:
    POST /api/hms/auth-token, POST /api/hms/rooms and GET /api/hms/rooms/:roomId.
    Each handler validates its input, resolves credentials through the shared
    cache, and then either answers at once or makes one call to the 100ms
    management API and translates its answer. Signing (`jwt.sign`), the
    random token id (`uuidv4`), the clock and the outbound `fetch` are
    abstracted: a token is the claim set together with the key and
    algorithm it is signed with, and the platform's answer is a parameter. */
module Handlers {
  import opened JsValues
  import opened Credentials

  const MissingTokenFields := "Missing required fields: roomId and userId"
  const AppCredentialsMissing := "HMS App credentials not configured. Please set them in admin settings."
  const MissingRoomName := "Missing required field: name"
  const ManagementTokenMissing := "HMS Management Token not configured. Please set it in admin settings."
  const InternalError := "Internal server error"

  /** Role given to a token when the request names none. */
  const DefaultRole := "guest"
  /** Lifetime of an app token, in seconds (24 hours). */
  const TokenLifetime: int := 24 * 3600

  /** The claim set of an app token: the registered claims iat, nbf, exp and
      jti of section 4.1 of RFC 7519 plus the platform's private claims. */
  datatype Payload = Payload(
    accessKey: string, roomId: string, userId: string, role: string,
    tokenType: string, version: int,
    iat: int, nbf: int, exp: int, jti: string)

  /** A JWS compact token, kept symbolically: what is signed, with which key,
      under which algorithm (HMAC with SHA-256, section 3.2 of RFC 7518). */
  datatype SignedToken = SignedToken(alg: string, payload: Payload, key: string)

  /** The JSON body a handler answers with. `RoomBody` is the platform's
      room document forwarded verbatim. */
  datatype Body =
    | ErrorBody(error: string)
    | TokenBody(token: SignedToken)
    | NotFoundBody                 // `{ exists: false }`
    | RoomBody(document: string)

  datatype Response = Response(status: int, body: Body)

  // ---------------------------------------------------------------------
  // POST /api/hms/auth-token

  /** The JSON body of a token request; an absent field is `None`. */
  datatype TokenRequest = TokenRequest(roomId: Option<string>, userId: Option<string>, role: Option<string>)

  /** The 400 answer of a token request that lacks a room or a user id, or
      `None` when the request may proceed to credential resolution. */
  function CheckTokenRequest(req: TokenRequest): (err: Option<Response>)
    ensures err.None? <==> Truthy(req.roomId) && Truthy(req.userId)
    ensures err.Some? ==> err.value.status == 400 && err.value.body == ErrorBody(MissingTokenFields)
  {
    if !Truthy(req.roomId) || !Truthy(req.userId) then
      Some(Response(400, ErrorBody(MissingTokenFields)))
    else
      None
  }

  /** The claims of the token issued at `nowMs` milliseconds since the epoch.
      The role defaults to "guest" only when the request has no role at all. */
  function BuildPayload(accessKey: string, roomId: string, userId: string, role: Option<string>,
                        nowMs: nat, jti: string): (p: Payload)
    // iat is the whole second the clock reading falls in
    ensures p.iat * 1000 <= nowMs < p.iat * 1000 + 1000
    ensures p.nbf == p.iat && p.exp == p.iat + 86400
    ensures p.tokenType == "app" && p.version == 2
    ensures p.accessKey == accessKey && p.roomId == roomId && p.userId == userId && p.jti == jti
    ensures p.role == (if role.Some? then role.value else "guest")
  {
    var now := nowMs / 1000;
    Payload(accessKey, roomId, userId, if role.Some? then role.value else DefaultRole,
            "app", 2, now, now, now + TokenLifetime, jti)
  }

  /** The answer of a validated token request once `creds` are resolved:
      a token signed with the app secret when both app credentials are set,
      a 500 otherwise. */
  function TokenReply(roomId: string, userId: string, role: Option<string>, creds: Creds,
                      nowMs: nat, jti: string): (res: Response)
    ensures res.status == 200 <==> creds.accessKey != "" && creds.appSecret != ""
    ensures res.status != 200 ==> res == Response(500, ErrorBody(AppCredentialsMissing))
    ensures res.status == 200 ==>
      res.body == TokenBody(SignedToken("HS256", BuildPayload(creds.accessKey, roomId, userId, role, nowMs, jti), creds.appSecret))
  {
    if creds.accessKey == "" || creds.appSecret == "" then
      Response(500, ErrorBody(AppCredentialsMissing))
    else
      var payload := BuildPayload(creds.accessKey, roomId, userId, role, nowMs, jti);
      Response(200, TokenBody(SignedToken("HS256", payload, creds.appSecret)))
  }

  /** Every issued token carries the claims the platform expects. */
  lemma IssuedTokenClaims(roomId: string, userId: string, role: Option<string>, creds: Creds,
                          nowMs: nat, jti: string)
    requires creds.accessKey != "" && creds.appSecret != ""
    ensures var res := TokenReply(roomId, userId, role, creds, nowMs, jti);
      res.body.TokenBody? &&
      var p := res.body.token.payload;
      && p.iat == nowMs / 1000
      && p.nbf == p.iat
      && p.exp == p.iat + 86400
      && p.tokenType == "app" && p.version == 2
      && p.accessKey == creds.accessKey
      && p.roomId == roomId && p.userId == userId && p.jti == jti
      && (role.None? ==> p.role == "guest")
      && (role.Some? ==> p.role == role.value)
      && res.body.token.key == creds.appSecret
  {
  }

  /** A verifier following sections 4.1.4 and 4.1.5 of RFC 7519 (no clock
      skew allowed) accepts the token at `t` seconds since the epoch. */
  predicate Accepts(p: Payload, t: int)
  {
    p.nbf <= t < p.exp
  }

  /** The token is accepted at exactly those clock readings (in ms) that lie
      in the 24 hours starting at the whole second it was issued in. */
  lemma TokenValidForADay(accessKey: string, roomId: string, userId: string, role: Option<string>,
                          nowMs: nat, jti: string, ms: nat)
    ensures var p := BuildPayload(accessKey, roomId, userId, role, nowMs, jti);
      var start := nowMs - nowMs % 1000;
      Accepts(p, ms / 1000) <==> start <= ms < start + 86400 * 1000
  {
  }

  // ---------------------------------------------------------------------
  // The platform's answer and its translation

  /** What the proxy sends to the 100ms management API, bearer token included. */
  datatype PlatformCall =
    | PostRoom(bearer: string, name: string, description: string)
    | GetRoom(bearer: string, roomId: string)

  /** The platform's body as `response.json()` sees it. `Unparsable` is a
      body that does not parse, or that parses to `null` (reading a field of
      it throws). Any other JSON value is `Parsed`: the document itself and
      the string values of its `message` and `error` fields, "" when absent
      or falsy. */
  datatype UpstreamBody =
    | Parsed(message: string, error: string, document: string)
    | Unparsable(reason: string)

  /** The outcome of the `fetch` to the platform: an HTTP answer, or an
      exception (network failure) caught by the handler's outer `catch`. */
  datatype Upstream =
    | Reply(status: int, statusText: string, body: UpstreamBody)
    | NetworkError(reason: string)

  /** `response.ok`: the status is in the range 200-299. */
  predicate Ok(u: Upstream)
    requires u.Reply?
  {
    200 <= u.status <= 299
  }

  /** The error text for a failed platform call: the body's `message`, else
      its `error`, else the status text; the status text alone when the body
      does not parse. */
  function PlatformErrorMessage(statusText: string, body: UpstreamBody): (m: string)
    ensures body.Unparsable? ==> m == statusText
    ensures body.Parsed? && body.message != "" ==> m == body.message
    ensures body.Parsed? && body.message == "" && body.error != "" ==> m == body.error
    ensures m == statusText || (body.Parsed? && (m == body.message || m == body.error))
    ensures m == "" <==> statusText == "" && (body.Parsed? ==> body.message == "" && body.error == "")
  {
    match body
    case Parsed(message, error, _) => Or(message, Or(error, statusText))
    case Unparsable(_) => statusText
  }

  /** The answer of an unexpected exception caught at the handler boundary. */
  function Crash(reason: string): (res: Response)
    ensures res.status == 500 && res.body.ErrorBody? && res.body.error != ""
    ensures reason != "" ==> res.body.error == reason
    ensures reason == "" ==> res.body.error == InternalError
  {
    Response(500, ErrorBody(Or(reason, InternalError)))
  }

  /** How a handler translates the platform's answer: a success forwards the
      document with status 200, a failure keeps the platform's status and
      carries its error text, an exception gives 500. */
  function ForwardResult(u: Upstream): (res: Response)
    ensures res.status == 200 <==> u.Reply? && Ok(u) && u.body.Parsed?
    ensures res.body.RoomBody? <==> res.status == 200
    ensures res.body.RoomBody? ==> res.body.document == u.body.document
    ensures u.Reply? && !Ok(u) ==> res == Response(u.status, ErrorBody(PlatformErrorMessage(u.statusText, u.body)))
    ensures u.NetworkError? ==> res == Crash(u.reason)
    ensures u.Reply? && Ok(u) && u.body.Unparsable? ==> res == Crash(u.body.reason)
  {
    match u
    case NetworkError(reason) => Crash(reason)
    case Reply(status, statusText, body) =>
      if !Ok(u) then
        Response(status, ErrorBody(PlatformErrorMessage(statusText, body)))
      else
        match body
        case Parsed(_, _, document) => Response(200, RoomBody(document))
        case Unparsable(reason) => Crash(reason)
  }

  /** The answer of the room lookup: a 404 from the platform means the room
      does not exist, which is answered with 200 and `{ exists: false }`;
      every other answer is translated as by the create handler. */
  function LookupResult(u: Upstream): (res: Response)
    ensures u.Reply? && u.status == 404 ==> res == Response(200, NotFoundBody)
    ensures !(u.Reply? && u.status == 404) ==> res == ForwardResult(u)
    ensures res.body.NotFoundBody? <==> u.Reply? && u.status == 404
  {
    if u.Reply? && u.status == 404 then Response(200, NotFoundBody) else ForwardResult(u)
  }

  /** The 500 answer of a room handler when no management token is resolved,
      or `None` when the platform can be called. */
  function CheckManagementToken(creds: Creds): (err: Option<Response>)
    ensures err.None? <==> creds.managementToken != ""
    ensures err.Some? ==> err.value == Response(500, ErrorBody(ManagementTokenMissing))
  {
    if creds.managementToken == "" then Some(Response(500, ErrorBody(ManagementTokenMissing))) else None
  }

  // ---------------------------------------------------------------------
  // POST /api/hms/rooms

  /** The JSON body of a create-room request; an absent field is `None`. */
  datatype RoomRequest = RoomRequest(name: Option<string>, description: Option<string>)

  /** The 400 answer of a create-room request without a name, or `None`. */
  function CheckRoomRequest(req: RoomRequest): (err: Option<Response>)
    ensures err.None? <==> Truthy(req.name)
    ensures err.Some? ==> err.value == Response(400, ErrorBody(MissingRoomName))
  {
    if !Truthy(req.name) then Some(Response(400, ErrorBody(MissingRoomName))) else None
  }

  /** The platform call of a validated create-room request: the resolved
      management token as bearer, the name as given, the description or "". */
  function CreateRoomCall(req: RoomRequest, creds: Creds): (call: PlatformCall)
    requires Truthy(req.name)
    ensures call.PostRoom? && call.bearer == creds.managementToken && call.name == req.name.value
    ensures call.description == "" <==> !Truthy(req.description)
    ensures Truthy(req.description) ==> call.description == req.description.value
  {
    PostRoom(creds.managementToken, req.name.value, OrElse(req.description, ""))
  }

  /** The example of a platform rejection: a 422 whose body says "dup" is
      answered with 422 and that message. */
  lemma DuplicateRoomRejected(statusText: string, document: string)
    ensures ForwardResult(Reply(422, statusText, Parsed("dup", "", document)))
      == Response(422, ErrorBody("dup"))
  {
  }

  // ---------------------------------------------------------------------
  // The handlers, run against the shared credential cache

  /** POST /api/hms/auth-token. `resolveMs` is the clock as the resolver
      reads it, `issueMs` as the handler reads it afterwards. */
  method IssueAuthToken(cache: CredentialCache, req: TokenRequest, env: Creds,
                        resolveMs: int, db: DbOutcome, issueMs: nat, jti: string)
    returns (res: Response, queried: bool)
    modifies cache
    ensures CheckTokenRequest(req).Some? ==>
      res == CheckTokenRequest(req).value && !queried && unchanged(cache)
    ensures CheckTokenRequest(req).None? ==>
      var r := ResolveStep(old(cache.State()), resolveMs, db, env);
      && cache.State() == r.next && queried == r.queried
      && res == TokenReply(req.roomId.value, req.userId.value, req.role, r.creds, issueMs, jti)
  {
    var err := CheckTokenRequest(req);
    if err.Some? {
      return err.value, false;
    }
    var creds;
    creds, queried := cache.Resolve(resolveMs, db, env);
    res := TokenReply(req.roomId.value, req.userId.value, req.role, creds, issueMs, jti);
  }

  /** POST /api/hms/rooms. `call` is the request sent to the platform, if
      any; `upstream` is the platform's answer to it. */
  method CreateRoom(cache: CredentialCache, req: RoomRequest, env: Creds,
                    now: int, db: DbOutcome, upstream: Upstream)
    returns (res: Response, call: Option<PlatformCall>, queried: bool)
    modifies cache
    ensures CheckRoomRequest(req).Some? ==>
      res == CheckRoomRequest(req).value && call == None && !queried && unchanged(cache)
    ensures CheckRoomRequest(req).None? ==>
      var r := ResolveStep(old(cache.State()), now, db, env);
      && cache.State() == r.next && queried == r.queried
      && (CheckManagementToken(r.creds).Some? ==> res == CheckManagementToken(r.creds).value && call == None)
      && (CheckManagementToken(r.creds).None? ==>
            call == Some(CreateRoomCall(req, r.creds)) && res == ForwardResult(upstream))
  {
    var err := CheckRoomRequest(req);
    if err.Some? {
      return err.value, None, false;
    }
    var creds;
    creds, queried := cache.Resolve(now, db, env);
    err := CheckManagementToken(creds);
    if err.Some? {
      return err.value, None, queried;
    }
    call := Some(CreateRoomCall(req, creds));
    res := ForwardResult(upstream);
  }

  /** GET /api/hms/rooms/:roomId. The path parameter is always present, so
      nothing is validated before credentials are resolved. */
  method LookupRoom(cache: CredentialCache, roomId: string, env: Creds,
                    now: int, db: DbOutcome, upstream: Upstream)
    returns (res: Response, call: Option<PlatformCall>, queried: bool)
    modifies cache
    ensures
      var r := ResolveStep(old(cache.State()), now, db, env);
      && cache.State() == r.next && queried == r.queried
      && (CheckManagementToken(r.creds).Some? ==> res == CheckManagementToken(r.creds).value && call == None)
      && (CheckManagementToken(r.creds).None? ==>
            call == Some(GetRoom(r.creds.managementToken, roomId)) && res == LookupResult(upstream))
  {
    var creds;
    creds, queried := cache.Resolve(now, db, env);
    var err := CheckManagementToken(creds);
    if err.Some? {
      return err.value, None, queried;
    }
    call := Some(GetRoom(creds.managementToken, roomId));
    res := LookupResult(upstream);
  }
}
