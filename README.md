# HMS proxy backend: credential cache and handler logic

A model in Dafny of the Express server `server.js` that stands between a
video-conferencing client and the 100ms management API. The model covers two things:

- **The credential resolver** (`getHMSTokensFromDatabase`). It keeps one global
  cache slot: the last settings row read from the database and the time it was read.
  A cached row is served while it is younger than five minutes (300000 ms). Otherwise
  the database is asked for the newest active row. A row that comes back replaces
  the cache and is stamped with the time read at entry. Any failure (an error result,
  no row, or an exception) returns the triple from the `HMS_*` environment variables
  and leaves the cache alone.
  `Credentials.CredentialCache` is the slot as a class with the fields `entry` and
  `timestamp`. Its method `Resolve` updates them in place. `Credentials.ResolveStep`
  is the same step as a function on a `CacheState` value. `Replay`, `Queries` and `Answers`
  run a sequence of calls, so lemmas can state what the cache does over time.
- **The three handlers**: `POST /api/hms/auth-token`, `POST /api/hms/rooms` and
  `GET /api/hms/rooms/:roomId`. Module `Handlers` has their decisions as pure functions:
  - request validation
  - the credential-presence checks
  - the JWT claim set (`iat`, `nbf`, `exp`, `jti` from section 4.1 of RFC 7519,
    signed with HS256 from section 3.2 of RFC 7518)
  - how the platform's answer is turned into the client's answer.

  The methods `IssueAuthToken`, `CreateRoom` and `LookupRoom` run each handler against
  the shared cache object. Their postconditions give the order of the steps.

The injected inputs are:

- the clock, in milliseconds
- the database outcome (`DbError | NoRow | Row(creds) | Throws`)
- the environment triple (an unset variable is `""`, since `x || ''` on a string is `x`)
- the token id
- the platform's answer: `Reply(status, statusText, body) | NetworkError(reason)`.
  The body is either parsed (any JSON value but `null`, with its `message`/`error`
  strings and the document) or unparseable (it does not parse, or it is `null`).

JavaScript truthiness of a string is "present and non-empty" (`JsValues.Truthy`).
`Math.floor(Date.now()/1000)` is integer division of a natural-number millisecond clock.

Details of the behaviour of `server.js` that the model keeps:

- The 400 answer of the token handler always carries the same text,
  "Missing required fields: roomId and userId", whichever field is missing
  (server.js:119-123).
- The default role `"guest"` comes from a destructuring default, so it applies only
  when the request has no `role` at all; an empty `role` string is kept (server.js:115).
- A database failure is not surfaced to the client and does not touch the cache
  (server.js:48-56, 65-79). An expired row stays in the slot, but while the clock
  moves forward it is never served again until a new row replaces it
  (`ExpiredEntryNeverServed`).

## Model

| member | source | states |
|---|---|---|
| `Credentials.ResolveStep` | server.js:29-80 | The database is consulted exactly when the cache is not fresh. A fresh entry is returned unchanged, with no state change. Past the check, the answer is the fetched row or else the environment triple. A row fetched past the check is stored, stamped with `now`, and that is the only way the state changes. Every failure kind leaves the state untouched. |
| `Credentials.CredentialCache.constructor` | server.js:24-25 | The slot starts in the state `Initial`: no row is cached and the timestamp is 0. |
| `Credentials.CredentialCache.Resolve` | server.js:29-80 | The method updates `entry` and `timestamp` in place exactly as `ResolveStep` prescribes. It returns the cached row without querying when fresh, and the fetched row (cache := row, timestamp := now) on success. On `DbError`, `NoRow` or `Throws` it returns `env` and leaves both fields unchanged. |
| `Credentials.Replay` | server.js:24-63 | Over any sequence of calls, a cache that holds a row never becomes empty again. The source has no code path that clears it. |
| `Credentials.Queries` | server.js:34-46 | Each call queries the database at most once. |
| `Credentials.CachedRowWasFetched` | server.js:48-70 | After any sequence of calls, the cache is either its starting state or a row that one of the calls fetched, stamped with that call's time. The environment fallback is never cached. |
| `Credentials.FreshCacheAnswersAll` | server.js:34-37 | While the entry is fresh for every call, every call answers the cached row, no call queries the database, and the state does not change. |
| `Credentials.CachedRowFromStart` | server.js:24-63 | From process start, a row in the cache after any sequence of calls is one the database returned to one of the calls, stamped with that call's time. |
| `Credentials.OneQueryPerWindow` | server.js:26-63 | If the database keeps returning rows, calls that all fall inside one five-minute window cause at most one query. |
| `Credentials.OutageQueriesEveryCall` | server.js:40-79 | Failures are not cached. While the cache cannot be served and the database returns no row, every call queries again and the state never changes. |
| `Credentials.ExpiredEntryNeverServed` | server.js:34-79 | Once the cached row has expired, if the clock never goes back and the database gives no row, then every call queries the database, every call answers the environment triple, and the state stays as it was. The expired row is never served again. |
| `Credentials.Fresh` | server.js:26-34 | Only a cached row can be served. A row younger than five minutes is served. A row five minutes old or older is not served. When the clock reads earlier than the fetch time, the row is served again. |
| `Credentials.Answers` | server.js:29-80 | A sequence of calls gives one answer per call. |
| `Handlers.CheckTokenRequest` | server.js:119-123 | A token request proceeds iff both `roomId` and `userId` are truthy. Otherwise the answer is 400 with the fixed missing-fields message. |
| `Handlers.BuildPayload` | server.js:138-152 | `iat` is the whole second that contains the clock reading (`iat * 1000 <= nowMs < iat * 1000 + 1000`). `nbf == iat` and `exp == iat + 86400`. The type is "app" and the version is 2. The access key, room id, user id and jti are the given ones. The role is the given one, or "guest" when absent. |
| `Handlers.TokenReply` | server.js:127-159 | Status 200 iff both the access key and the app secret are non-empty; otherwise 500 with the configuration message and no token. On 200, the body is the claim set signed with the app secret under HS256. |
| `Handlers.IssuedTokenClaims` | server.js:115-156 | An issued token has `iat == nowMs / 1000`, `nbf == iat` and `exp == iat + 86400`. It has type "app" and version 2. Its access key is the resolved one, and its room id, user id and jti are the given ones. The role is "guest" when the request has none. The signing key is the app secret. |
| `Handlers.TokenValidForADay` | server.js:138-150 | A verifier that applies `nbf`/`exp` as RFC 7519 describes accepts the token exactly at the 24 hours that start at the whole second of issue. |
| `JsValues.Or` | server.js:209 | `a || b` on strings gives `a` when it is non-empty, else `b`. It is empty only if both are empty. |
| `JsValues.OrElse` | server.js:200 | `v || d` on an optional string field gives the field when it is present and non-empty, else `d`. |
| `Handlers.PlatformErrorMessage` | server.js:206-212 | The error text is `message`, else `error`, else `statusText`, and `statusText` when the body does not parse. It is empty only if all candidates are empty. |
| `Handlers.Crash` | server.js:222-227 | An exception caught at the handler boundary gives 500. The error text is the exception's message when that is non-empty, and "Internal server error" otherwise. |
| `Handlers.ForwardResult` | server.js:204-220 | The answer is 200 iff the platform answered 2xx with a parseable body, and the document is then forwarded verbatim. A non-2xx status is propagated verbatim with the chosen error text. A network failure or an unparseable success body gives 500. |
| `Handlers.LookupResult` | server.js:254-274 | A platform 404 becomes 200 with `{exists:false}`, and only a 404 does. Every other answer is translated as `ForwardResult` does. |
| `Handlers.CheckManagementToken` | server.js:241-245 | A room handler may call the platform iff the resolved management token is non-empty. Otherwise the answer is 500 with the configuration message. |
| `Handlers.CheckRoomRequest` | server.js:176-180 | Create-room proceeds iff `name` is truthy. Otherwise the answer is 400 with the missing-name message. |
| `Handlers.CreateRoomCall` | server.js:192-202 | The create call carries the management token as bearer and the name as given. The description is the given one when truthy and "" otherwise. |
| `Handlers.DuplicateRoomRejected` | server.js:204-215 | A platform 422 with body message "dup" is answered with 422 and error "dup". |
| `Handlers.IssueAuthToken` | server.js:113-167 | An invalid request answers 400 without resolving credentials, and the cache is untouched. Otherwise the handler resolves once (the cache moves as `ResolveStep` says) and answers `TokenReply` with the resolved credentials. |
| `Handlers.CreateRoom` | server.js:170-228 | A missing name answers 400 before any resolution. Otherwise the handler resolves once; with no management token it answers 500 and makes no platform call. Otherwise it sends `CreateRoomCall` and answers `ForwardResult` of the platform's reply. |
| `Handlers.LookupRoom` | server.js:231-282 | The handler resolves once; with no management token it answers 500 and makes no platform call. Otherwise it sends `GET /rooms/{roomId}` with the token as bearer and answers `LookupResult` of the reply. |

## Left out

- Express setup, CORS, the logging middleware, the `/` and `/health` endpoints and the startup banner (server.js:82-110, 284-302): framework plumbing without logic.
- The Supabase client and its query builder (server.js:12-15, 40-46): a foreign SDK. Only the outcome of the query is modelled. With `.single()`, a missing row usually arrives as an error; both paths fall back the same way.
- The outbound `fetch` calls (server.js:192-202, 247-252): network I/O. The request is returned as a `PlatformCall` value and the answer is a parameter. URL building and JSON encoding are not modelled.
- `jwt.sign` and `uuidv4` (server.js:151, 154-156): cryptography and randomness. A token is the claim set with its key and algorithm, not the signature bytes. The token id is a parameter. A `jwt.sign` exception (the outer catch of the token handler) is not modelled.
- Concurrent requests racing on the cache: calls are modelled as sequential. The races are last-write-wins.
- Console output and `process.env` reads: environment values are parameters. The module-level `HMS_*` variables (server.js:18-20) are read only by `/health` and the banner, so they are not modelled.
- JSON values other than strings in request bodies and platform error bodies (numbers, objects, `null`): every field is an optional string, with absent or falsy modelled as `""` or `None`.
- The initial error text "HMS API Error" (server.js:206, 260): it is always overwritten before use, so it never reaches a client.
- `Credentials.Queries`: its own contract states only the per-call bound. The exact counts are stated by `FreshCacheAnswersAll`, `OneQueryPerWindow`, `OutageQueriesEveryCall` and `ExpiredEntryNeverServed`.
- `Credentials.Answers`: its own contract states only that there is one answer per call. What the answers are is stated by `ExpiredEntryNeverServed`.
