/** The `/api/secrets` router: the route table with Express's first-match
    dispatch, the input-validation middleware, and the six handlers, each of
    which calls the service and then, only if that succeeded, appends one audit
    row with a fixed action tag before replying. */
module SecretRoutes {
  import opened Wrappers
  import opened Text
  import opened Errors
  import opened Models
  import opened Crypto
  import opened Query
  import opened SecretService
  import opened AuditService
  import opened AuthMiddleware
  import opened Paging

  const AuthenticationRequired: string := "Authentication required"
  const SecretDeleted: string := "Secret deleted successfully"
  /** What reading `req.user.id` throws when no user is attached. */
  const NoUserError: ErrorValue := ErrorValue("TypeError", None, "Cannot read properties of undefined (reading 'id')")

  // ---------------------------------------------------------------- routing

  datatype Verb = Get | Post | Put | Delete

  datatype Handler =
    | CreateSecretHandler | ListSecretsHandler | GetSingleSecretHandler
    | UpdateSecretHandler | DeleteSecretHandler | SearchSecretsHandler

  /** A route path: a fixed string, or `/:id`. */
  datatype Pattern = Literal(path: string) | IdParam

  /** One `router.<verb>(path, authMiddleware, [validateSecretInput,] handler)`. */
  datatype Route = Route(verb: Verb, pattern: Pattern, validates: bool, handler: Handler)

  /** The routes in registration order. */
  const Routes: seq<Route> := [
    Route(Post, Literal("/create"), true, CreateSecretHandler),
    Route(Get, Literal("/"), false, ListSecretsHandler),
    Route(Get, IdParam, false, GetSingleSecretHandler),
    Route(Put, IdParam, true, UpdateSecretHandler),
    Route(Delete, IdParam, false, DeleteSecretHandler),
    Route(Get, Literal("/search"), false, SearchSecretsHandler)
  ]

  /** Non-strict routing: one trailing slash is ignored. */
  function TrimSlash(path: string): (p: string)
    ensures |p| <= |path|
  {
    if |path| > 1 && path[|path| - 1] == '/' then path[..|path| - 1] else path
  }

  /** Whether a path matches a pattern, and the `id` parameter it binds.
      Literal paths match without regard to case. */
  function MatchPattern(pattern: Pattern, path: string): (r: Option<Option<string>>)
    ensures r.Some? ==> (r.value.Some? <==> pattern.IdParam?)
    ensures pattern.Literal? ==> (r.Some? <==> Lower(TrimSlash(path)) == Lower(pattern.path))
    ensures pattern.IdParam? && r.Some? ==> "/" + r.value.value == TrimSlash(path) && r.value.value != []
    ensures pattern.IdParam? ==>
      (r.Some? <==> |TrimSlash(path)| >= 2 && TrimSlash(path)[0] == '/' && '/' !in TrimSlash(path)[1..])
  {
    match pattern
    case Literal(l) => if Lower(TrimSlash(path)) == Lower(l) then Some(None) else None
    case IdParam =>
      var p := TrimSlash(path);
      if |p| >= 2 && p[0] == '/' && '/' !in p[1..] then Some(Some(p[1..])) else None
  }

  predicate Accepts(route: Route, verb: Verb, path: string) {
    route.verb == verb && MatchPattern(route.pattern, path).Some?
  }

  /** The route that handles a request and the `id` it binds. */
  datatype Match = Match(index: nat, route: Route, id: Option<string>)

  /** Express tries the routes in order and the first that accepts wins. */
  function Dispatch(verb: Verb, path: string, from: nat := 0): (m: Option<Match>)
    requires from <= |Routes|
    decreases |Routes| - from
    ensures m.Some? ==>
      && from <= m.value.index < |Routes| && m.value.route == Routes[m.value.index]
      && Accepts(m.value.route, verb, path)
      && Some(m.value.id) == MatchPattern(m.value.route.pattern, path)
      && (forall j :: from <= j < m.value.index ==> !Accepts(Routes[j], verb, path))
    ensures m.None? ==> forall j :: from <= j < |Routes| ==> !Accepts(Routes[j], verb, path)
  {
    if from == |Routes| then None
    else if Accepts(Routes[from], verb, path) then
      Some(Match(from, Routes[from], MatchPattern(Routes[from].pattern, path).value))
    else Dispatch(verb, path, from + 1)
  }

  lemma SlashIsOnlyLowerOfSlash(c: char)
    ensures LowerChar(c) == '/' <==> c == '/'
  {
  }

  /** Every path the literal `/search` accepts is one segment without a slash,
      which `/:id` accepts as well. */
  lemma {:induction false} SearchPathIsIdPath(verb: Verb, path: string)
    ensures Accepts(Routes[5], verb, path) ==> Accepts(Routes[2], verb, path)
  {
    if Accepts(Routes[5], verb, path) {
      var p := TrimSlash(path);
      assert Lower(p) == Lower("/search");
      assert Lower("/search") == "/search";
      forall k | 0 <= k < |p|
        ensures (p[k] == '/') == (k == 0)
      {
        assert Lower(p)[k] == LowerChar(p[k]);
        SlashIsOnlyLowerOfSlash(p[k]);
      }
    }
  }

  /** `GET /search` is registered after `GET /:id`, and every path the former
      accepts the latter accepts too: the search handler is never reached. */
  lemma {:induction false} SearchHandlerUnreachable(verb: Verb, path: string)
    ensures Dispatch(verb, path).Some? ==> Dispatch(verb, path).value.route.handler != SearchSecretsHandler
  {
    SearchPathIsIdPath(verb, path);
  }

  /** `GET /search` goes to the single-secret handler with `id` "search". */
  lemma SearchPathReachesGetSingleSecret()
    ensures Dispatch(Get, "/search") == Some(Match(2, Routes[2], Some("search")))
  {
    assert !Accepts(Routes[1], Get, "/search") by {
      assert Lower(TrimSlash("/search")) != Lower("/") by {
        assert |Lower(TrimSlash("/search"))| == 7;
      }
    }
    assert "/search"[1..] == "search";
    assert '/' !in "search";
  }

  // ---------------------------------------------------------------- replies

  /** `{ total, page, limit, totalPages }`. */
  datatype Pagination = Pagination(total: nat, page: int, limit: int, totalPages: int)

  /** The fields the update reply exposes. */
  datatype UpdatedSecret = UpdatedSecret(id: string, name: string, category: Category, updatedAt: int)

  /** The success bodies; none of them carries `encryptedValue`. */
  datatype Payload =
    | Created(secret: SecretSummary)
    | Listed(secrets: seq<SecretSummary>, pagination: Pagination)
    | Shown(secret: SecretSummary)
    | Updated(updated: UpdatedSecret)
    | Deleted(message: string)

  /** A handler either sends a reply or passes an error to `next`. */
  datatype HandlerResult = Sent(status: int, payload: Payload) | Passed(error: ErrorValue)

  /** The query string of the list and search routes. */
  datatype QueryParams = QueryParams(page: Option<string>, limit: Option<string>,
                                     query: Option<string>, category: Option<string>)

  /** The values a request draws from the outside world: the salt and IV
      bytes, the UUIDs of a new secret and of the audit row, and the clock. */
  datatype Draw = Draw(random: SaltBytes, iv: IvBytes, secretId: string, auditId: string, now: int)

  /** A string entry of audit metadata; `undefined` drops out of the JSON. */
  function WithText(m: Metadata, key: string, v: Option<string>): (r: Metadata)
    ensures key in r <==> key in m || v.Some?
    ensures v.Some? ==> r[key] == MetaString(v.value)
    ensures forall k :: k != key && k in m ==> k in r && r[k] == m[k]
  {
    if v.Some? then m[key := MetaString(v.value)] else m
  }

  /** `{ secretName: req.body.name, category: req.body.category }`. */
  function SecretMetadata(body: SecretInput): (m: Metadata)
    ensures "secretName" in m <==> body.name.Some?
    ensures body.name.Some? ==> m["secretName"] == MetaString(body.name.value)
    ensures "category" in m <==> body.category.Some?
    ensures body.category.Some? ==> m["category"] == MetaString(body.category.value)
    ensures forall k :: k in m ==> k == "secretName" || k == "category"
  {
    WithText(WithText(map[], "secretName", body.name), "category", body.category)
  }

  /** `{ secretCount: count, page, limit }`. */
  function ListMetadata(count: nat, page: int, limit: int): (m: Metadata)
    ensures m.Keys == {"secretCount", "page", "limit"}
    ensures m["secretCount"] == MetaNumber(count) && m["page"] == MetaNumber(page) && m["limit"] == MetaNumber(limit)
  {
    map["secretCount" := MetaNumber(count), "page" := MetaNumber(page), "limit" := MetaNumber(limit)]
  }

  /** `{ query, category, resultCount: count }`. */
  function SearchMetadata(query: Option<string>, category: Option<string>, count: nat): (m: Metadata)
    ensures "query" in m <==> query.Some?
    ensures query.Some? ==> m["query"] == MetaString(query.value)
    ensures "category" in m <==> category.Some?
    ensures category.Some? ==> m["category"] == MetaString(category.value)
    ensures "resultCount" in m && m["resultCount"] == MetaNumber(count)
    ensures forall k :: k in m ==> k == "query" || k == "category" || k == "resultCount"
  {
    WithText(WithText(map[], "query", query), "category", category)["resultCount" := MetaNumber(count)]
  }

  /** `logAction` rejects after a successful service call only when its row
      cannot be inserted: the client address was found but the id is taken. */
  predicate LogRejects(before: seq<AuditRow>, req: RequestInfo, auditId: string) {
    ClientIp(req).Found? && HasAuditId(before, auditId)
  }

  /** The audit table after one `logAction` call: one row for this user,
      action, resource and metadata when the insert goes through, otherwise no change. */
  ghost predicate LoggedOnce(before: seq<AuditRow>, after: seq<AuditRow>, userId: string,
                             action: AuditAction, resourceId: Option<string>, metadata: Metadata,
                             req: RequestInfo, auditId: string)
  {
    if ClientIp(req).Found? && !HasAuditId(before, auditId) then
      && |after| == |before| + 1 && after[..|before|] == before
      && after[|before|].id == auditId && after[|before|].userId == userId
      && after[|before|].action == action && after[|before|].resourceId == resourceId
      && after[|before|].metadata == AuditMetadata(metadata, Header(req, "user-agent"), ClientIp(req).ip)
    else after == before
  }

  /** The `validateSecretInput` middleware: the same four checks as the
      service, ending in `next()` or `next(error)`. */
  method ValidateSecretInputMiddleware(ex: Exchange, body: SecretInput)
    modifies ex
    ensures ex.user == old(ex.user)
    ensures ex.nextCalls == old(ex.nextCalls) +
      [if ValidateSecretInput(body).Pass? then None else Some(ValidateSecretInput(body).error)]
  {
    var check := ValidateSecretInput(body);
    if check.Fail? {
      ex.nextCalls := ex.nextCalls + [Some(check.error)];
    } else {
      ex.nextCalls := ex.nextCalls + [None];
    }
  }

  /** An incoming request as far as this router looks at it. */
  datatype Request = Request(verb: Verb, path: string, authorization: Option<string>,
                             body: SecretInput, query: QueryParams, info: RequestInfo)

  /** What the process supplies: the token verifier, the `users` table, the
      master key and cipher, and `NODE_ENV`. */
  datatype Env = Env(verify: string -> Verification, users: seq<UserRow>, keyring: Keyring, nodeEnv: Option<string>)

  /** What goes back: a success body, the error handler's reply, or no route
      of this router matched (the request falls through to the application). */
  datatype Reply = Replied(status: int, payload: Payload) | Errored(reply: ErrorReply) | NoRoute

  // ---------------------------------------------------------------- handler outcomes
  // What each handler does, as a relation between the two tables before
  // (`s0`, `a0`) and after (`s1`, `a1`) and the handler's result.

  /** The reply the router sends for a handler's result: its own, or the error handler's. */
  function ReplyOf(result: HandlerResult, nodeEnv: Option<string>): (r: Reply)
    ensures result.Sent? ==> r == Replied(result.status, result.payload)
    ensures result.Passed? ==> r == Errored(HandleError(result.error, nodeEnv)) && !r.reply.success
  {
    match result
    case Sent(status, payload) => Replied(status, payload)
    case Passed(error) => Errored(HandleError(error, nodeEnv))
  }

  /** `createSecret`: 401 without a user; otherwise the service's insert, then one
      CREATE_SECRET row, then 201 with the new secret's summary. */
  ghost predicate CreateOutcome(s0: seq<SecretRow>, a0: seq<AuditRow>, s1: seq<SecretRow>, a1: seq<AuditRow>,
                                user: Option<UserView>, body: SecretInput, req: RequestInfo, keyring: Keyring,
                                draw: Draw, result: HandlerResult)
  {
    && (user.None? ==> result == Passed(UnauthorizedError(AuthenticationRequired)))
    && var created := user.Some? && ValidateSecretInput(body).Pass? && keyring.masterKey.Some?
                      && !HasSecretId(s0, draw.secretId);
    && (!created ==> result.Passed? && s1 == s0 && a1 == a0)
    // The service's error, in the order the service checks.
    && (user.Some? && !created ==>
          result == Passed(if ValidateSecretInput(body).Fail? then ValidateSecretInput(body).error
                           else if keyring.masterKey.None? then PlainError(EncryptionFailed + MissingKeyCause)
                           else ValidationError(CreateFailed + DuplicateKey)))
    && (created ==>
          && |s1| == |s0| + 1 && s1[..|s0|] == s0
          && s1[|s0|].id == draw.secretId && s1[|s0|].userId == user.value.id
          && Some(s1[|s0|].name) == body.name && s1[|s0|].category == CategoryOrDefault(body.category)
          && s1[|s0|].createdAt == draw.now && s1[|s0|].updatedAt == draw.now
          && (Sound(keyring.prims) ==>
                DecryptValue(s1[|s0|].encryptedValue, keyring.masterKey, keyring.prims) == Success(body.value.value))
          && LoggedOnce(a0, a1, user.value.id, AuditAction.CreateSecret, Some(draw.secretId),
                        SecretMetadata(body), req, draw.auditId)
          && result == (if LogRejects(a0, req, draw.auditId) then Passed(DuplicateIdError)
                        else Sent(201, Created(Summary(s1[|s0|])))))
  }

  /** The list and search handlers: the page of the caller's matching secrets at
      the parsed page and limit, one audit row, then the rows and the pagination block. */
  ghost predicate PageOutcome(s0: seq<SecretRow>, a0: seq<AuditRow>, s1: seq<SecretRow>, a1: seq<AuditRow>,
                              user: Option<UserView>, query: QueryParams, searching: bool,
                              req: RequestInfo, draw: Draw, result: HandlerResult)
  {
    && s1 == s0
    && (user.None? ==> result == Passed(NoUserError) && a1 == a0)
    && (user.Some? ==>
          var page := ParamOr(query.page, DefaultPage);
          var limit := ParamOr(query.limit, Paging.DefaultLimit);
          var where := if searching
            then SecretWhere(user.value.id,
                             if Truthy(query.category) then query.category else None,
                             if Truthy(query.query) then query.query else None)
            else SecretWhere(user.value.id, None, None);
          var found := FindAndCountAll(s0, where, limit, Offset(page, limit));
          && (if searching
              then LoggedOnce(a0, a1, user.value.id, SearchSecrets, None,
                              SearchMetadata(query.query, query.category, found.count), req, draw.auditId)
              else LoggedOnce(a0, a1, user.value.id, ViewSecrets, None,
                              ListMetadata(found.count, page, limit), req, draw.auditId))
          && result == (if LogRejects(a0, req, draw.auditId) then Passed(DuplicateIdError)
                        else Sent(200, Listed(found.rows,
                                              Pagination(found.count, page, limit, TotalPages(found.count, limit))))))
  }

  /** `getSingleSecret`: NotFound, or one VIEW_SECRET row and the summary. */
  ghost predicate GetOutcome(s0: seq<SecretRow>, a0: seq<AuditRow>, s1: seq<SecretRow>, a1: seq<AuditRow>,
                             user: Option<UserView>, id: string, req: RequestInfo, draw: Draw, result: HandlerResult)
  {
    && s1 == s0
    && (user.None? ==> result == Passed(NoUserError) && a1 == a0)
    && (user.Some? && FindOne(s0, id, user.value.id).None? ==>
          result == Passed(NotFoundError(SecretNotFound)) && a1 == a0)
    && (user.Some? && FindOne(s0, id, user.value.id).Some? ==>
          && LoggedOnce(a0, a1, user.value.id, ViewSecret, Some(id), map[], req, draw.auditId)
          && result == (if LogRejects(a0, req, draw.auditId) then Passed(DuplicateIdError)
                        else Sent(200, Shown(Summary(s0[FindOne(s0, id, user.value.id).value])))))
  }

  /** `updateSecret`: the service's update of the caller's row (and no other),
      then one UPDATE_SECRET row, then the id, name, category and `updatedAt`. */
  ghost predicate UpdateOutcome(s0: seq<SecretRow>, a0: seq<AuditRow>, s1: seq<SecretRow>, a1: seq<AuditRow>,
                                user: Option<UserView>, id: string, body: SecretInput, req: RequestInfo,
                                keyring: Keyring, draw: Draw, result: HandlerResult)
  {
    && (user.None? ==> result == Passed(NoUserError))
    && var updated := user.Some? && ValidateSecretInput(body).Pass?
                      && FindOne(s0, id, user.value.id).Some? && keyring.masterKey.Some?;
    && (!updated ==> result.Passed? && s1 == s0 && a1 == a0)
    // The service's error: validation, then a missing or foreign id, then the key.
    && (user.Some? && !updated ==>
          result == Passed(if ValidateSecretInput(body).Fail? then ValidateSecretInput(body).error
                           else if FindOne(s0, id, user.value.id).None? then NotFoundError(SecretNotFound)
                           else PlainError(EncryptionFailed + MissingKeyCause)))
    && (updated ==>
          var i := FindOne(s0, id, user.value.id).value;
          var category := if Truthy(body.category) then CategoryOrDefault(body.category) else s0[i].category;
          && |s1| == |s0|
          && s1 == s0[i := Revise(s0[i], body.name.value, category, s1[i].encryptedValue, draw.now)]
          && (Sound(keyring.prims) ==>
                DecryptValue(s1[i].encryptedValue, keyring.masterKey, keyring.prims) == Success(body.value.value))
          && LoggedOnce(a0, a1, user.value.id, UpdateSecret, Some(id), SecretMetadata(body), req, draw.auditId)
          && result == (if LogRejects(a0, req, draw.auditId) then Passed(DuplicateIdError)
                        else Sent(200, Updated(UpdatedSecret(id, s1[i].name, s1[i].category, s1[i].updatedAt)))))
  }

  /** `deleteSecret`: the caller's row is removed and nothing else, then one
      DELETE_SECRET row and the confirmation. */
  ghost predicate DeleteOutcome(s0: seq<SecretRow>, a0: seq<AuditRow>, s1: seq<SecretRow>, a1: seq<AuditRow>,
                                user: Option<UserView>, id: string, req: RequestInfo, draw: Draw, result: HandlerResult)
  {
    && (user.None? ==> result == Passed(NoUserError))
    && var removed := user.Some? && FindOne(s0, id, user.value.id).Some?;
    && (!removed ==> result.Passed? && s1 == s0 && a1 == a0)
    && (user.Some? && !removed ==> result == Passed(NotFoundError(SecretNotFound)))
    && (removed ==>
          var i := FindOne(s0, id, user.value.id).value;
          && s1 == s0[..i] + s0[i + 1..]
          && !HasSecretId(s1, id)
          && LoggedOnce(a0, a1, user.value.id, DeleteSecret, Some(id), map[], req, draw.auditId)
          && result == (if LogRejects(a0, req, draw.auditId) then Passed(DuplicateIdError)
                        else Sent(200, Deleted(SecretDeleted))))
  }

  /** The outcome of the handler a matched route names. */
  ghost predicate HandlerOutcome(m: Match, request: Request, env: Env, user: Option<UserView>, draw: Draw,
                                 s0: seq<SecretRow>, a0: seq<AuditRow>, s1: seq<SecretRow>, a1: seq<AuditRow>,
                                 result: HandlerResult)
  {
    match m.route.handler
    case CreateSecretHandler =>
      CreateOutcome(s0, a0, s1, a1, user, request.body, request.info, env.keyring, draw, result)
    case ListSecretsHandler =>
      PageOutcome(s0, a0, s1, a1, user, request.query, false, request.info, draw, result)
    case GetSingleSecretHandler =>
      m.id.Some? && GetOutcome(s0, a0, s1, a1, user, m.id.value, request.info, draw, result)
    case UpdateSecretHandler =>
      m.id.Some? && UpdateOutcome(s0, a0, s1, a1, user, m.id.value, request.body, request.info, env.keyring, draw, result)
    case DeleteSecretHandler =>
      m.id.Some? && DeleteOutcome(s0, a0, s1, a1, user, m.id.value, request.info, draw, result)
    case SearchSecretsHandler =>
      PageOutcome(s0, a0, s1, a1, user, request.query, true, request.info, draw, result)
  }

  /** Consecutive pages at the same limit are adjacent windows of the ordered
      rows: no row is skipped or shown twice between page `page` and the next. */
  lemma {:induction false} ConsecutivePages<T>(ord: seq<T>, page: int, limit: int)
    requires page >= 1 && limit >= 0
    ensures Window(ord, limit, Offset(page, limit)) + Window(ord, limit, Offset(page + 1, limit))
            == Window(ord, 2 * limit, Offset(page, limit))
  {
    var o := Offset(page, limit);
    var a := Window(ord, limit, o);
    var b := Window(ord, limit, o + limit);
    var w := Window(ord, 2 * limit, o);
    assert |a + b| == |w|;
    forall k | 0 <= k < |w|
      ensures (a + b)[k] == w[k]
    {
      if k >= |a| {
        assert Start(|ord|, o + limit) == Start(|ord|, o) + |a|;
      }
    }
  }

  /** `GET /search` runs the single-secret handler on the id `search`. */
  lemma SearchRequestReadsSecretNamedSearch(request: Request, env: Env, user: Option<UserView>, draw: Draw,
                                            s0: seq<SecretRow>, a0: seq<AuditRow>, s1: seq<SecretRow>,
                                            a1: seq<AuditRow>, result: HandlerResult)
    requires request.verb == Get && request.path == "/search"
    ensures Dispatch(request.verb, request.path).Some?
    ensures HandlerOutcome(Dispatch(request.verb, request.path).value, request, env, user, draw, s0, a0, s1, a1, result)
            <==> GetOutcome(s0, a0, s1, a1, user, "search", request.info, draw, result)
  {
    SearchPathReachesGetSingleSecret();
  }

  /** The router over the two tables it touches. */
  class SecretRouter {
    const secrets: SecretStore
    const audit: AuditLog

    ghost predicate Valid()
      reads this, secrets, audit
    {
      secrets.Valid() && audit.Valid()
    }

    constructor ()
      ensures Valid() && fresh(secrets) && fresh(audit)
      ensures secrets.rows == [] && audit.rows == []
    {
      secrets := new SecretStore();
      audit := new AuditLog();
    }

    /** The `await AuditService.logAction(...)` step that follows a successful
        service call: a rejected insert becomes the handler's error. */
    method Audit(userId: string, action: AuditAction, resourceId: Option<string>, metadata: Option<Metadata>,
                 req: RequestInfo, auditId: string, now: int)
      returns (error: Option<ErrorValue>)
      requires audit.Valid()
      modifies audit
      ensures audit.Valid()
      ensures LoggedOnce(old(audit.rows), audit.rows, userId, action, resourceId, metadata.GetOr(map[]), req, auditId)
      ensures error == (if LogRejects(old(audit.rows), req, auditId) then Some(DuplicateIdError) else None)
    {
      ParseActionName(action);
      var out := audit.LogAction(userId, ActionName(action), resourceId, metadata, req, auditId, now);
      error := if out.Rejected? then Some(out.error) else None;
    }

    /** `POST /create`. */
    method CreateSecretRoute(user: Option<UserView>, body: SecretInput, req: RequestInfo,
                             keyring: Keyring, draw: Draw)
      returns (result: HandlerResult)
      requires Valid()
      modifies secrets, audit
      ensures Valid()
      ensures CreateOutcome(old(secrets.rows), old(audit.rows), secrets.rows, audit.rows,
                            user, body, req, keyring, draw, result)
    {
      if user.None? {
        return Passed(UnauthorizedError(AuthenticationRequired));
      }
      var r := secrets.CreateSecret(user.value.id, body, keyring, draw.random, draw.iv, draw.secretId, draw.now);
      if r.Failure? {
        return Passed(r.error);
      }
      assert secrets.rows[..|old(secrets.rows)|] == old(secrets.rows);
      var error := Audit(user.value.id, AuditAction.CreateSecret, Some(r.value.id), Some(SecretMetadata(body)),
                         req, draw.auditId, draw.now);
      if error.Some? {
        return Passed(error.value);
      }
      result := Sent(201, Created(Summary(r.value)));
    }

    /** `GET /`: page and limit from the query string, then one page of the
        caller's secrets (no category or name filter is passed on). */
    method ListSecretsRoute(user: Option<UserView>, query: QueryParams, req: RequestInfo, draw: Draw)
      returns (result: HandlerResult)
      requires Valid()
      modifies audit
      ensures Valid()
      ensures PageOutcome(old(secrets.rows), old(audit.rows), secrets.rows, audit.rows,
                          user, query, false, req, draw, result)
    {
      if user.None? {
        return Passed(NoUserError);
      }
      var page := ParamOr(query.page, DefaultPage);
      var limit := ParamOr(query.limit, Paging.DefaultLimit);
      var offset := Offset(page, limit);
      var found := secrets.ListSecrets(user.value.id, ListOptions(Some(limit), Some(offset), None, None));
      var error := Audit(user.value.id, ViewSecrets, None, Some(ListMetadata(found.count, page, limit)),
                         req, draw.auditId, draw.now);
      if error.Some? {
        return Passed(error.value);
      }
      result := Sent(200, Listed(found.rows, Pagination(found.count, page, limit, TotalPages(found.count, limit))));
    }

    /** `GET /:id`. */
    method GetSingleSecretRoute(user: Option<UserView>, id: string, req: RequestInfo, draw: Draw)
      returns (result: HandlerResult)
      requires Valid()
      modifies audit
      ensures Valid()
      ensures GetOutcome(old(secrets.rows), old(audit.rows), secrets.rows, audit.rows, user, id, req, draw, result)
    {
      if user.None? {
        return Passed(NoUserError);
      }
      var r := secrets.GetSecretById(user.value.id, id);
      if r.Failure? {
        return Passed(r.error);
      }
      var error := Audit(user.value.id, ViewSecret, Some(id), None, req, draw.auditId, draw.now);
      if error.Some? {
        return Passed(error.value);
      }
      result := Sent(200, Shown(Summary(r.value)));
    }

    /** `PUT /:id`. */
    method UpdateSecretRoute(user: Option<UserView>, id: string, body: SecretInput, req: RequestInfo,
                             keyring: Keyring, draw: Draw)
      returns (result: HandlerResult)
      requires Valid()
      modifies secrets, audit
      ensures Valid()
      ensures UpdateOutcome(old(secrets.rows), old(audit.rows), secrets.rows, audit.rows,
                            user, id, body, req, keyring, draw, result)
    {
      if user.None? {
        return Passed(NoUserError);
      }
      var r := secrets.UpdateSecret(user.value.id, id, body, keyring, draw.random, draw.iv, draw.now);
      if r.Failure? {
        return Passed(r.error);
      }
      var error := Audit(user.value.id, UpdateSecret, Some(id), Some(SecretMetadata(body)), req, draw.auditId, draw.now);
      if error.Some? {
        return Passed(error.value);
      }
      result := Sent(200, Updated(UpdatedSecret(r.value.id, r.value.name, r.value.category, r.value.updatedAt)));
    }

    /** `DELETE /:id`. */
    method DeleteSecretRoute(user: Option<UserView>, id: string, req: RequestInfo, draw: Draw)
      returns (result: HandlerResult)
      requires Valid()
      modifies secrets, audit
      ensures Valid()
      ensures DeleteOutcome(old(secrets.rows), old(audit.rows), secrets.rows, audit.rows, user, id, req, draw, result)
    {
      if user.None? {
        return Passed(NoUserError);
      }
      var r := secrets.DeleteSecret(user.value.id, id);
      if r.Failure? {
        return Passed(r.error);
      }
      var error := Audit(user.value.id, DeleteSecret, Some(id), None, req, draw.auditId, draw.now);
      if error.Some? {
        return Passed(error.value);
      }
      result := Sent(200, Deleted(SecretDeleted));
    }

    /** `GET /search` (registered, but shadowed by `GET /:id`). */
    method SearchSecretsRoute(user: Option<UserView>, query: QueryParams, req: RequestInfo, draw: Draw)
      returns (result: HandlerResult)
      requires Valid()
      modifies audit
      ensures Valid()
      ensures PageOutcome(old(secrets.rows), old(audit.rows), secrets.rows, audit.rows,
                          user, query, true, req, draw, result)
    {
      if user.None? {
        return Passed(NoUserError);
      }
      var page := ParamOr(query.page, DefaultPage);
      var limit := ParamOr(query.limit, Paging.DefaultLimit);
      var offset := Offset(page, limit);
      var found := secrets.SearchSecrets(user.value.id, SearchOptions(query.query, query.category, Some(limit), Some(offset)));
      var error := Audit(user.value.id, SearchSecrets, None,
                         Some(SearchMetadata(query.query, query.category, found.count)), req, draw.auditId, draw.now);
      if error.Some? {
        return Passed(error.value);
      }
      result := Sent(200, Listed(found.rows, Pagination(found.count, page, limit, TotalPages(found.count, limit))));
    }

    /** The handler a matched route names, run on the authenticated request. */
    method RunHandler(m: Match, request: Request, env: Env, user: Option<UserView>, draw: Draw)
      returns (result: HandlerResult)
      requires Valid()
      requires m.index < |Routes| && m.route == Routes[m.index]
      requires m.route.pattern.IdParam? ==> m.id.Some?
      modifies secrets, audit
      ensures Valid()
      ensures HandlerOutcome(m, request, env, user, draw, old(secrets.rows), old(audit.rows),
                             secrets.rows, audit.rows, result)
    {
      match m.route.handler {
        case CreateSecretHandler =>
          result := CreateSecretRoute(user, request.body, request.info, env.keyring, draw);
        case ListSecretsHandler =>
          result := ListSecretsRoute(user, request.query, request.info, draw);
        case GetSingleSecretHandler =>
          result := GetSingleSecretRoute(user, m.id.value, request.info, draw);
        case UpdateSecretHandler =>
          result := UpdateSecretRoute(user, m.id.value, request.body, request.info, env.keyring, draw);
        case DeleteSecretHandler =>
          result := DeleteSecretRoute(user, m.id.value, request.info, draw);
        case SearchSecretsHandler =>
          result := SearchSecretsRoute(user, request.query, request.info, draw);
      }
    }

    /** One request through the router: dispatch, `authMiddleware`, the
        validation middleware on the routes that have it, the handler, and the
        error handler for whatever reaches `next(error)`. */
    method Serve(request: Request, env: Env, draw: Draw) returns (reply: Reply)
      requires Valid()
      modifies secrets, audit
      ensures Valid()
      ensures Dispatch(request.verb, request.path).None? ==>
        reply == NoRoute && secrets.rows == old(secrets.rows) && audit.rows == old(audit.rows)
      ensures Dispatch(request.verb, request.path).Some?
              && AuthMiddleware.Authenticate(request.authorization, env.verify, env.users).Failure? ==>
        && reply == Errored(HandleError(AuthMiddleware.Authenticate(request.authorization, env.verify, env.users).error,
                                        env.nodeEnv))
        && reply.reply.status == 401
        && secrets.rows == old(secrets.rows) && audit.rows == old(audit.rows)
      ensures Dispatch(request.verb, request.path).Some?
              && AuthMiddleware.Authenticate(request.authorization, env.verify, env.users).Success?
              && Dispatch(request.verb, request.path).value.route.validates
              && ValidateSecretInput(request.body).Fail? ==>
        && reply == Errored(HandleError(ValidateSecretInput(request.body).error, env.nodeEnv))
        && reply.reply.status == 400
        && secrets.rows == old(secrets.rows) && audit.rows == old(audit.rows)
      // A request that gets past both middlewares is the named handler's, run as the authenticated user.
      ensures Dispatch(request.verb, request.path).Some?
              && AuthMiddleware.Authenticate(request.authorization, env.verify, env.users).Success?
              && (Dispatch(request.verb, request.path).value.route.validates ==> ValidateSecretInput(request.body).Pass?) ==>
        exists result :: HandlerOutcome(Dispatch(request.verb, request.path).value, request, env,
                                        Some(AuthMiddleware.Authenticate(request.authorization, env.verify, env.users).value),
                                        draw, old(secrets.rows), old(audit.rows), secrets.rows, audit.rows, result)
                         && reply == ReplyOf(result, env.nodeEnv)
      ensures reply.Errored? ==> !reply.reply.success
    {
      var m := Dispatch(request.verb, request.path);
      if m.None? {
        return NoRoute;
      }
      var ex := new Exchange();
      ex.RunAuthMiddleware(request.authorization, env.verify, env.users);
      if ex.nextCalls[0].Some? {
        return Errored(HandleError(ex.nextCalls[0].value, env.nodeEnv));
      }
      if m.value.route.validates {
        ValidateSecretInputMiddleware(ex, request.body);
        if ex.nextCalls[1].Some? {
          return Errored(HandleError(ex.nextCalls[1].value, env.nodeEnv));
        }
      }
      var result := RunHandler(m.value, request, env, ex.user, draw);
      reply := ReplyOf(result, env.nodeEnv);
    }
  }
}
