# encryptolock backend — a Dafny model

encryptolock stores secrets (passwords, API keys, notes) for users who sign in
with an Ethereum wallet. This project models its Express/Sequelize backend:

- the secret service: AES-256-GCM encryption framed as `salt:iv:tag:ciphertext`
  hex fields; input validation; and the owner-scoped create, read, update,
  delete, list and search operations;
- the audit service: appending, querying and expiring audit rows;
- the secrets router: dispatch, validation middleware, pagination and the
  "service call, then one audit append" handlers;
- the JWT authentication middleware and the sign-in and profile routes;
- the error handler and the four custom error classes;
- the three Sequelize models and the invariants of their tables.

Each table is a `seq` field of a class, and the operations that change a table are
methods with `modifies` clauses: `SecretService.SecretStore`, `AuditService.AuditLog`,
`AuthRoutes.UserTable`, and the router `SecretRoutes.SecretRouter` over the first two.
The request and `next` of the middleware chain are `AuthMiddleware.Exchange`. Pure
logic is functions with lemmas: validation, framing, error mapping, pagination,
dispatch and token checks.

The outside world is passed in as parameters:

- PBKDF2 and AES-GCM seal/open are function-valued fields of `Crypto.Primitives`.
  The one assumed fact, "open inverts seal and the tag is 16 bytes", is the
  predicate `Crypto.Sound`, required by the lemmas that need it.
- `jwt.verify` is a function returning `AuthMiddleware.Verification`.
  `jwt.sign` is a function of the signing request.
  `ethers.verifyMessage` is a function returning the recovered address or `None`.
- `crypto.randomBytes`, the generated UUIDs and the clock are parameters
  (`SaltBytes`, `IvBytes`, `freshId`, `now` in milliseconds).
- A UUID that clashes with an existing key is the database's unique-constraint failure.

The database is SQLite: a negative `LIMIT` means no limit, and a negative
`OFFSET` counts as 0.

Behaviour of the code that the model keeps as written:

- The handlers append an audit row only after the service call succeeded. A failed
  create, read, update or delete leaves the audit table unchanged.
- `logAction` catches only a failure that happens before it returns. It returns the
  un-awaited `AuditLog.create` promise, and the handler awaits it, so a rejected
  insert fails the request after the secret was already changed.
- A name of 1 to 100 characters passes validation: the check is `> 100`. The error
  message says "less than 100 characters", but a 100-character name is accepted.
- `GET /search` is registered after `GET /:id`, so it never runs. A search request
  reads the secret with id `search` instead.
- The sign-in route looks users up by the address exactly as recovered. That is the
  mixed-case checksummed form. The `users` schema accepts only lower-case addresses,
  so a first sign-in from such an address fails with 500.

## Model

| member | source | states |
|---|---|---|
| Text.Split | backend/services/secretService.js:49 | `split` on one character: at least one piece, no piece holds the separator, a string without it is one piece |
| Text.SplitJoin | backend/services/secretService.js:40-49 | splitting `a:b:c:d` at `:` gives back the fields when none contains `:` (the payload written at line 40 is read back at line 49) |
| Text.JoinSplit | backend/middleware/authMiddleware.js:20-28 | re-joining the pieces of a split gives the original string, so an accepted header is exactly `Bearer ` + token |
| Text.ContainsAt | backend/services/secretService.js:116-121 | the name filter `%q%` holds exactly when `q` occurs at some position of the name |
| Text.Lower | backend/routes/authRoutes.js:44 | `toLowerCase` keeps the length, maps each character and leaves no upper-case ASCII letter |
| Hex.Encode | backend/services/secretService.js:12 | `toString('hex')` writes two lower-case hex digits per byte |
| Hex.EncodeAt | backend/services/secretService.js:12 | the two characters at positions `2i` and `2i+1` are the high and low hex digit of byte `i` |
| Hex.Decode | backend/services/secretService.js:61-62 | `Buffer.from(s, 'hex')` yields at most half as many bytes as characters |
| Hex.DecodePairs | backend/services/secretService.js:61-62 | each decoded byte is the value of the two hex digits at its position |
| Hex.DecodeStops | backend/services/secretService.js:61-62 | decoding stops only at the end or at the first pair that is not two hex digits; an odd last character is dropped |
| Hex.DecodeEncode | backend/services/secretService.js:61-62 | decoding the hex of some bytes gives back those bytes |
| Errors.StatusCode | backend/middleware/errorHandler.js:4-9 | a non-zero `status` wins; otherwise ValidationError gives 400, UnauthorizedError 401, ForbiddenError 403, NotFoundError 404 and any other name 500; never 0 |
| Errors.HandleError | backend/middleware/errorHandler.js:2-21 | the reply is `success: false` with the computed status, the error's message or the default, and the debug fields exactly in development |
| Errors.CustomClassesAgree | backend/middleware/errorHandler.js:36-66 | each custom class's status equals the status its name maps to |
| Errors.UnknownErrorsAre500 | backend/middleware/errorHandler.js:4-9 | an error with no status and an unknown name is a 500 |
| Models.ParseCategory | backend/models/Secret.js:19-22 | a string names a category exactly when it is one of the four ENUM values |
| Models.ParseCategoryName | backend/models/Secret.js:19-22 | every category's name parses back to that category |
| Models.ParseAction | backend/models/AuditLog.js:14-26 | a string names an action exactly when it is one of the eight ENUM values |
| Models.ParseActionName | backend/models/AuditLog.js:14-26 | every action's name parses back to that action |
| Models.UsersOkInsert | backend/models/User.js:5-16 | appending a user keeps the table valid exactly when its id and its address are new and the address is lower case |
| Crypto.GenerateSalt | backend/services/secretService.js:11-13 | the salt is 32 lower-case hex digits |
| Crypto.EncryptValue | backend/services/secretService.js:15-44 | fails exactly when the master key is unset, with the `Encryption failed: ` message; otherwise the payload splits into salt, iv, tag and ciphertext hex in that order |
| Crypto.DecryptValue | backend/services/secretService.js:46-76 | every failure is an `Error` prefixed `Decryption failed: `; a value is returned only when `open` authenticated the four fields |
| Crypto.EncryptFrames | backend/services/secretService.js:30-40 | with a key, the payload is four hex fields of 16, 12 and 16 bytes and then the ciphertext |
| Crypto.DecryptEncrypt | backend/services/secretService.js:15-76 | decrypting an encryption under the same key returns the original value |
| Query.Filter | backend/services/secretService.js:123-129 | the kept rows are rows of the table that satisfy the condition, and every such row is kept |
| Query.FilterMultiset | backend/services/secretService.js:123-129 | each row occurs in the filtered rows as often as in the table when it satisfies the condition, and not at all otherwise |
| Query.SortDesc | backend/services/secretService.js:128 | the ordered rows are a permutation of the input |
| Query.SortDescSorted | backend/services/secretService.js:128 | the ordering is by `createdAt` descending |
| Query.Window | backend/services/secretService.js:126-127 | `LIMIT`/`OFFSET`: the window starts at the clamped offset and has `limit` rows or the rest |
| Query.PageOfSorted | backend/services/secretService.js:123-129 | a window of the sorted rows is sorted and draws only on the input |
| SecretService.ValidateSecretInput | backend/services/secretService.js:228-248 | passes exactly when name and value are non-empty, the name has at most 100 characters and any category is valid; otherwise the first failing check decides the ValidationError |
| SecretService.NameLengthBoundary | backend/services/secretService.js:238-240 | a name of 100 characters passes and one of 101 fails with the length error, despite the message saying "less than 100" |
| SecretService.CategoryOrDefault | backend/services/secretService.js:94 | an absent or empty category becomes OTHER; a given one is kept |
| SecretService.FindOne | backend/services/secretService.js:135-140 | the found row matches both `id` and `userId`; none is found exactly when no row matches both |
| SecretService.OtherOwnerSeesNothing | backend/services/secretService.js:135-140 | with unique ids, another user's id lookup of a row finds nothing |
| SecretService.SummaryHidesPayload | backend/services/secretService.js:123-129 | the summary a listing returns does not depend on the encrypted payload |
| SecretService.FindAndCountAll | backend/services/secretService.js:123-129 | `count` is the number of matches; the rows are the summaries of the `limit`/`offset` window of an ordering of exactly the matching rows, newest first; at most `limit`; empty past the end; full pages inside the range |
| SecretService.SecretStore.CreateSecret | backend/services/secretService.js:79-99 | validation, then encryption, then the insert; any failure leaves the table as it was; a success appends one row with the caller, name, defaulted category and a payload that decrypts to the value |
| SecretService.SecretStore.GetSecretById | backend/services/secretService.js:134-147 | returns the caller's row with that id, else NotFoundError |
| SecretService.SecretStore.UpdateSecret | backend/services/secretService.js:150-179 | validation, then the owner's row (NotFoundError when missing or another user's), then encryption (the `Encryption failed: ` error without a key); only that row changes, to the `Revise` of it with the new name, the category (kept when none is given) and a payload that decrypts to the value |
| SecretService.Revise | backend/services/secretService.js:163-178 | the updated row keeps id, owner, metadata and `createdAt`, takes the new name, category and payload, and moves `updatedAt` only when a field changed |
| SecretService.SecretStore.DeleteSecret | backend/services/secretService.js:182-193 | removes exactly the caller's row and returns true, after which the id is gone; otherwise NotFoundError and no change |
| SecretService.RemoveRow | backend/services/secretService.js:182-193 | `secret.destroy()` on one row of a table with unique ids keeps the other rows in order, keeps the ids unique and leaves no row with that id |
| SecretService.SecretStore.ListSecrets | backend/services/secretService.js:102-131 | the page of the owner's rows, filtered by category and name only when those options are truthy, with limit 10 and offset 0 by default |
| SecretService.SecretStore.SearchSecrets | backend/services/secretService.js:196-225 | the same query with the name filter taken from `query` |
| AuditService.ClientIp | backend/services/auditService.js:16-19 | the first truthy of `req.ip`, the connection's remote address, the socket's remote address, then `x-forwarded-for`, in that order; throws exactly when an undefined `connection` or `socket` is read |
| AuditService.AuditMetadata | backend/services/auditService.js:22-26 | the caller's keys are kept except `userAgent`/`ipAddress`, which take the request's values and are dropped when undefined |
| AuditService.FindAndCountAllLogs | backend/services/auditService.js:62-67 | `count` is the match total; the rows are the `limit`/`offset` window of an ordering of exactly the matching rows, newest first; at most `limit`; full pages inside the range |
| AuditService.RetainedPlusExpired | backend/services/auditService.js:71-82 | the kept and the deleted rows together are the whole table |
| AuditService.FilterKeepsUnique | backend/models/AuditLog.js:5-9 | deleting rows keeps the primary keys unique |
| AuditService.AuditLog.LogAction | backend/services/auditService.js:5-42 | a throwing address lookup gives null and no row; a bad action or a taken id is a rejection; otherwise exactly one row with the given user, action, resource, metadata and address is appended |
| AuditService.AuditLog.GetUserAuditLogs | backend/services/auditService.js:45-68 | only the caller's rows, within both dates when both are given, at most 50 by default |
| AuditService.AuditLog.CleanupOldLogs | backend/services/auditService.js:71-82 | the table becomes exactly its rows created at or after the cutoff, and the result counts the rest |
| AuthMiddleware.ExtractToken | backend/middleware/authMiddleware.js:14-33 | a missing header is "No token provided", a header not of the form `Bearer <token>` "Invalid token format", an empty token "Empty token", all UnauthorizedErrors; an accepted header is `Bearer ` + token |
| AuthMiddleware.ClassifyVerifyError | backend/middleware/authMiddleware.js:45-56 | TokenExpiredError gives "Token expired", JsonWebTokenError "Invalid token", any other "Authentication failed", all 401 |
| AuthMiddleware.VerifyToken | backend/middleware/authMiddleware.js:37-56 | succeeds exactly on a decoded payload with a truthy `userId`; a payload without one ends as "Authentication failed" |
| AuthMiddleware.FindUser | backend/middleware/authMiddleware.js:59-61 | finds the row with that primary key, or none when no row has it |
| AuthMiddleware.Authenticate | backend/middleware/authMiddleware.js:5-87 | succeeds exactly when the header, the token and the user lookup all pass, with that user; a header or token failure is passed on unchanged; every failure is a 401 UnauthorizedError |
| AuthMiddleware.GenerateToken | backend/middleware/authMiddleware.js:90-101 | the payload carries the user's id and address; it expires after `JWT_EXPIRATION` when that is truthy, else after `1h` |
| AuthMiddleware.IssuedTokenAuthenticates | backend/middleware/authMiddleware.js:20-66 | a token verifying to `generateToken`'s payload of a stored user, sent as `Bearer <token>`, authenticates as that user |
| AuthMiddleware.Exchange.RunAuthMiddleware | backend/middleware/authMiddleware.js:78-86 | `next` is called exactly once, without an argument after setting `req.user` or with the error and `req.user` untouched |
| AuthRoutes.Internal | backend/routes/authRoutes.js:94-106 | an unexpected failure is a 500 "Internal server error" with details only in development |
| AuthRoutes.IndexOfAddress | backend/routes/authRoutes.js:58-64 | finds the first row whose address equals the recovered one exactly, or none |
| AuthRoutes.SignIn | backend/routes/authRoutes.js:12-107 | missing input is 400 before recovery; failed recovery 401; a lowercased mismatch 401 "Address mismatch"; a refusal changes nothing; a sign-in happens exactly when the addresses match and the user exists or can be created; an existing user's row gets `lastLogin` and `updatedAt` set to now and nothing else changes; a new user is appended; the table invariant is kept |
| AuthRoutes.RepeatLoginSameUser | backend/routes/authRoutes.js:58-70 | a second sign-in from the same recovered address reaches the same user id and creates no row |
| AuthRoutes.MixedCaseFirstLoginFails | backend/routes/authRoutes.js:58-64 | with a valid table, a recovered address that is not lower case gives a 500 and no new user |
| AuthRoutes.UserTable.Authenticate | backend/routes/authRoutes.js:12-107 | the reply and the new table are those of `SignIn`; the table invariant is kept |
| AuthRoutes.SecondPart | backend/routes/authRoutes.js:125 | the token is the second space-separated piece, present exactly when there are at least two |
| AuthRoutes.Profile | backend/routes/authRoutes.js:110-172 | a 401 exactly when the header is missing, has no token or fails verification; a 404 exactly when the verified `userId` is no row's id; otherwise the stored user's id, address and last login |
| AuthRoutes.ProfileIgnoresScheme | backend/routes/authRoutes.js:125 | any word in place of `Bearer` gets the same reply |
| AuthRoutes.MiddlewareAcceptedProfileAccepts | backend/routes/authRoutes.js:113-161 | every header the middleware accepts also gets the profile of the same user |
| Paging.ParseInt | backend/routes/secretRoutes.js:87-88 | `parseInt`: leading white space, sign, `0x` prefix, longest digit run; undefined or blank is NaN |
| Paging.ParseIntNumeral | backend/routes/secretRoutes.js:87-88 | `parseInt` reads back every integer written in decimal |
| Paging.ParseIntTrailing | backend/routes/secretRoutes.js:87-88 | characters after the digits that are not digits are ignored: a numeral followed by such text reads as the numeral |
| Paging.ParseIntHex | backend/routes/secretRoutes.js:87-88 | `0x` followed by hex digits reads as the hexadecimal value |
| Paging.ParseIntSkipsSpace | backend/routes/secretRoutes.js:87-88 | leading white space does not change the result |
| Paging.ParamOr | backend/routes/secretRoutes.js:87-88 | NaN or 0 falls back to the default, any other number is kept, and the result is never 0 |
| Paging.Offset | backend/routes/secretRoutes.js:89 | the offset of page 1 or later is not negative, and that of a page below 1 is negative |
| Paging.TotalPages | backend/routes/secretRoutes.js:115 | `Math.ceil(count / limit)`: for a positive limit, the smallest page count whose pages cover all rows |
| Paging.PageWithinTotal | backend/routes/secretRoutes.js:87-115 | with a positive limit, page `p` is at most `totalPages` exactly when its offset `(p-1)*limit` is before the end |
| SecretRoutes.MatchPattern | backend/routes/secretRoutes.js:239-244 | `/:id` accepts exactly one non-empty segment and binds it; a literal path matches exactly when the paths agree ignoring case and one trailing slash |
| SecretRoutes.Dispatch | backend/routes/secretRoutes.js:239-244 | the chosen route accepts the request and no earlier route does; no route means none accepts |
| SecretRoutes.SearchPathIsIdPath | backend/routes/secretRoutes.js:241-244 | every path `/search` accepts, `/:id` accepts too |
| SecretRoutes.SearchHandlerUnreachable | backend/routes/secretRoutes.js:239-244 | no request is dispatched to the search handler |
| SecretRoutes.SearchPathReachesGetSingleSecret | backend/routes/secretRoutes.js:241-244 | `GET /search` goes to the single-secret handler with id `search` |
| SecretRoutes.WithText | backend/routes/secretRoutes.js:66-69 | a metadata entry is added exactly when the value is defined; other keys are untouched |
| SecretRoutes.SecretMetadata | backend/routes/secretRoutes.js:66-69 | the create and update metadata holds `secretName` and `category` exactly when they are defined, with the request's values, and nothing else |
| SecretRoutes.ListMetadata | backend/routes/secretRoutes.js:100-104 | the list metadata is exactly `secretCount`, `page` and `limit` with those values |
| SecretRoutes.SearchMetadata | backend/routes/secretRoutes.js:218-222 | the search metadata always holds `resultCount`, and `query` and `category` exactly when defined |
| SecretRoutes.ConsecutivePages | backend/routes/secretRoutes.js:87-92 | pages `p` and `p+1` at the same limit are adjacent windows: together they are the window of twice the limit at page `p`'s offset |
| SecretRoutes.ValidateSecretInputMiddleware | backend/routes/secretRoutes.js:18-46 | the service's four checks in the same order; exactly one call to `next`, with the first failure or none |
| SecretRoutes.SecretRouter.Audit | backend/routes/secretRoutes.js:62-71 | one `logAction` with a fixed tag appends that row, with the given metadata plus the request's user agent and address, or nothing; its rejection becomes the handler's error |
| SecretRoutes.SecretRouter.CreateSecretRoute | backend/routes/secretRoutes.js:49-82 | no user is 401; a failed create changes neither table and passes on the validation error, the missing-key error or the duplicate-id error, in that order; a create appends the caller's row with the name, defaulted category, both timestamps now and a payload that decrypts to the value, then one CREATE_SECRET row and a 201 summary, or the audit rejection after the insert |
| SecretRoutes.SecretRouter.ListSecretsRoute | backend/routes/secretRoutes.js:85-118 | the page of the caller's secrets at the parsed page and limit, one VIEW_SECRETS row, and the pagination block |
| SecretRoutes.SecretRouter.GetSingleSecretRoute | backend/routes/secretRoutes.js:121-148 | NotFound leaves the audit table alone; a found secret gets one VIEW_SECRET row and its summary |
| SecretRoutes.SecretRouter.UpdateSecretRoute | backend/routes/secretRoutes.js:151-179 | a failed update changes neither table and passes on the validation error, NotFoundError for a missing or foreign id, or the missing-key error; an update replaces only that row by its revision with the new name, the new or kept category and `updatedAt`, with a payload that decrypts to the value, then one UPDATE_SECRET row and the id, name, category and `updatedAt` |
| SecretRoutes.SecretRouter.DeleteSecretRoute | backend/routes/secretRoutes.js:182-200 | a missing or foreign id passes on NotFoundError and changes neither table; a delete removes exactly the caller's row, keeping the others in order, then one DELETE_SECRET row and the confirmation |
| SecretRoutes.SecretRouter.SearchSecretsRoute | backend/routes/secretRoutes.js:203-236 | the search page with the query and category filters, one SEARCH_SECRETS row, and the pagination block |
| SecretRoutes.SecretRouter.RunHandler | backend/routes/secretRoutes.js:49-236 | the handler a route names has exactly the outcome stated for that handler |
| SecretRoutes.SecretRouter.Serve | backend/routes/secretRoutes.js:239-244 | an authentication failure is a 401 and a validation failure on create/update a 400, both with no change to either table; a request past both middlewares has the outcome of the route's handler run as the authenticated user; every error reply has `success: false` |
| SecretRoutes.SearchRequestReadsSecretNamedSearch | backend/routes/secretRoutes.js:121-148 | the outcome of `GET /search` is that of reading the secret with id `search` |

## Left out

- Cryptography itself (PBKDF2, AES-256-GCM, signature recovery, JWT signing and verification) is abstract; only the framing and the control flow around it are modelled.
- Sequelize and SQLite internals are not modelled: connection failures, transactions, and the retry in `findOrCreate`. The modelled database failures are the unique-key clash and the validators.
- `Crypto.DecryptValue`: the exact Node error texts after the `Decryption failed: ` prefix are placeholders. So is the text for a missing key after `Encryption failed: `.
- `Crypto.EncryptValue`: the UTF-8 encoding of the value happens inside the abstract cipher.
- `SecretService.ValidateSecretInput`: `name.length` counts UTF-16 code units in JavaScript; the model counts characters. Request fields are strings or absent; other JSON types are not modelled.
- `SecretService.FindAndCountAll`: SQLite's `LIKE` ignores ASCII case and treats `%` and `_` in the query as wildcards; the model uses a case-sensitive plain substring. Rows with equal `createdAt` come out in table order; the database leaves that order unspecified.
- `SecretService.SecretStore.UpdateSecret`: the value is always present after validation, so the "keep the payload" branch of the source is modelled but never taken.
- `AuditService.AuditLog.CleanupOldLogs`: `setDate` on local calendar days is modelled as whole days of 86 400 000 ms; daylight-saving shifts are not.
- `AuditService.AuditLog.GetUserAuditLogs`: dates are milliseconds; a date of 0, falsy in JavaScript, is treated as given.
- `Text.Lower`: `toLowerCase` only on ASCII letters; the lowercase validator likewise.
- `Paging.ParseInt`: JavaScript numbers lose precision beyond 2^53; the model's integers do not.
- `Paging.TotalPages`: `Math.ceil` on a negative limit is modelled, and `-0` is written as 0.
- `AuditService.AuditLog.LogAction`: refusing an action outside the column's ENUM, and the text of that error, are choices of the model; whether Sequelize enforces the ENUM on SQLite is not modelled. No handler passes such an action (`Models.ParseActionName`).
- `SecretRoutes.Dispatch`: Express also answers `HEAD` with the matching `GET` route, sending the headers without the body; `HEAD` (and `OPTIONS`) requests are not modelled.
- `SecretRoutes.MatchPattern`: URL decoding of the `:id` segment is not modelled.
- `SecretRoutes.SecretRouter.Serve`: repeated query parameters (arrays) are not modelled. A request no route matches falls through to the application, which is not modelled.
- `AuthRoutes.SignIn`: `jwt.sign` is total. A missing `JWT_SECRET` would throw after `lastLogin` was saved, and that is not modelled.
- `AuthRoutes.Profile`: the 500 of its outer `catch` comes only from database failures, which are not modelled.
- `Errors.HandleError`: the `stack` field of the development reply is not modelled. The debug part carries the name and the error value.
- Console logging throughout is not modelled.
- `mfaService.js` and `secretSharingRoutes.js` are not part of this model. Neither are the frontend, `server.js`, `config/database.js` and `debug.js`.
