/** `authMiddleware`: read the `Authorization: Bearer <token>` header
    (RFC 6750 section 2.1), verify the JSON Web Token (RFC 7519), look the user
    up, and either set `req.user` and call `next()` or call `next(error)` with an
    UnauthorizedError. `jwt.verify` is opaque: its outcome is a parameter. */
module AuthMiddleware {
  import opened Wrappers
  import opened Text
  import opened Errors
  import opened Models

  const NoTokenProvided: string := "No token provided"
  const InvalidTokenFormat: string := "Invalid token format"
  const EmptyToken: string := "Empty token"
  const TokenExpired: string := "Token expired"
  const InvalidToken: string := "Invalid token"
  const AuthenticationFailed: string := "Authentication failed"
  const InvalidTokenPayload: string := "Invalid token payload"
  const UserNotFound: string := "User not found"
  const DefaultExpiration: string := "1h"

  /** The payload claims the code reads; `None` when the claim is absent. */
  datatype Claims = Claims(userId: Option<string>, ethereumAddress: Option<string>)

  /** What `jwt.verify(token, secret)` does: return the decoded payload, or
      throw an error of the given name (`TokenExpiredError`, `JsonWebTokenError`, ...). */
  datatype Verification = Decoded(claims: Claims) | VerifyError(name: string)

  /** The user as loaded with attributes `id`, `ethereumAddress`, `lastLogin`. */
  datatype UserView = UserView(id: string, ethereumAddress: string, lastLogin: Option<int>)

  function View(row: UserRow): UserView {
    UserView(row.id, row.ethereumAddress, row.lastLogin)
  }

  /** The header checks: present and non-empty, exactly two space-separated
      parts of which the first is `Bearer`, and a non-empty token. */
  function ExtractToken(header: Option<string>): (r: Result<string, ErrorValue>)
    ensures !Truthy(header) ==> r == Failure(UnauthorizedError(NoTokenProvided))
    ensures r.Success? <==>
      (Truthy(header) && |Split(header.value, ' ')| == 2 && Split(header.value, ' ')[0] == "Bearer"
       && Split(header.value, ' ')[1] != "")
    ensures r.Success? ==>
      Split(header.value, ' ') == ["Bearer", r.value] && header.value == "Bearer " + r.value && ' ' !in r.value
    ensures Truthy(header) && (|Split(header.value, ' ')| != 2 || Split(header.value, ' ')[0] != "Bearer") ==>
      r == Failure(UnauthorizedError(InvalidTokenFormat))
    ensures Truthy(header) && Split(header.value, ' ') == ["Bearer", ""] ==>
      r == Failure(UnauthorizedError(EmptyToken))
    ensures r.Failure? ==>
      (r.error.name == "UnauthorizedError" && r.error.message in {NoTokenProvided, InvalidTokenFormat, EmptyToken})
  {
    if !Truthy(header) then Failure(UnauthorizedError(NoTokenProvided))
    else
      var parts := Split(header.value, ' ');
      if |parts| != 2 || parts[0] != "Bearer" then Failure(UnauthorizedError(InvalidTokenFormat))
      else if parts[1] == "" then Failure(UnauthorizedError(EmptyToken))
      else
        JoinSplit(header.value, ' ');
        Success(parts[1])
  }

  /** The inner catch: the error name decides the message. */
  function ClassifyVerifyError(name: string): (e: ErrorValue)
    ensures e.name == "UnauthorizedError" && StatusCode(e) == 401
    ensures name == "TokenExpiredError" <==> e.message == TokenExpired
    ensures name == "JsonWebTokenError" <==> e.message == InvalidToken
    ensures name != "TokenExpiredError" && name != "JsonWebTokenError" <==> e.message == AuthenticationFailed
  {
    if name == "TokenExpiredError" then UnauthorizedError(TokenExpired)
    else if name == "JsonWebTokenError" then UnauthorizedError(InvalidToken)
    else UnauthorizedError(AuthenticationFailed)
  }

  /** The inner `try`: verify, then demand a truthy `userId`. The payload error
      is an UnauthorizedError thrown inside the `try`, so the `catch` turns it
      into "Authentication failed". */
  function VerifyToken(token: string, verify: string -> Verification): (r: Result<string, ErrorValue>)
    ensures r.Success? <==> verify(token).Decoded? && Truthy(verify(token).claims.userId)
    ensures r.Success? ==> Some(r.value) == verify(token).claims.userId
    ensures verify(token).Decoded? && !r.Success? ==> r == Failure(UnauthorizedError(AuthenticationFailed))
    ensures verify(token).VerifyError? ==> r == Failure(ClassifyVerifyError(verify(token).name))
  {
    match verify(token)
    case VerifyError(name) => Failure(ClassifyVerifyError(name))
    case Decoded(claims) =>
      if !Truthy(claims.userId) then
        // `throw new UnauthorizedError('Invalid token payload')`, caught right away.
        Failure(ClassifyVerifyError(UnauthorizedError(InvalidTokenPayload).name))
      else Success(claims.userId.value)
  }

  /** `User.findByPk(id)`. */
  function FindUser(users: seq<UserRow>, id: string): (r: Option<UserRow>)
    ensures r.Some? ==> r.value in users && r.value.id == id
    ensures r.None? <==> forall i :: 0 <= i < |users| ==> users[i].id != id
  {
    if users == [] then None
    else if users[0].id == id then Some(users[0])
    else FindUser(users[1..], id)
  }

  /** The decision the middleware takes: the user it attaches, or the error it
      passes to `next`. */
  function Authenticate(header: Option<string>, verify: string -> Verification, users: seq<UserRow>)
    : (r: Result<UserView, ErrorValue>)
    ensures r.Failure? ==> r.error.name == "UnauthorizedError" && StatusCode(r.error) == 401
    // Each stage's own error is the one passed on.
    ensures ExtractToken(header).Failure? ==> r == Failure(ExtractToken(header).error)
    ensures ExtractToken(header).Success? && VerifyToken(ExtractToken(header).value, verify).Failure? ==>
      r == Failure(VerifyToken(ExtractToken(header).value, verify).error)
    ensures r.Success? <==>
      ExtractToken(header).Success? && VerifyToken(ExtractToken(header).value, verify).Success?
      && FindUser(users, VerifyToken(ExtractToken(header).value, verify).value).Some?
    ensures r.Success? ==>
      exists i :: 0 <= i < |users| && r.value == View(users[i])
                  && Some(users[i].id) == verify(ExtractToken(header).value).claims.userId
    ensures (ExtractToken(header).Success? && VerifyToken(ExtractToken(header).value, verify).Success?
             && !r.Success?) ==> r == Failure(UnauthorizedError(UserNotFound))
  {
    match ExtractToken(header)
    case Failure(e) => Failure(e)
    case Success(token) =>
      match VerifyToken(token, verify)
      case Failure(e) => Failure(e)
      case Success(userId) =>
        match FindUser(users, userId)
        case None => Failure(UnauthorizedError(UserNotFound))
        case Some(row) =>
          var i :| 0 <= i < |users| && users[i] == row;
          Success(View(row))
  }

  /** What `generateToken(user)` hands to `jwt.sign`: the payload and `expiresIn`. */
  datatype TokenRequest = TokenRequest(claims: Claims, expiresIn: string)

  /** `generateToken(user)`: payload `{ userId, ethereumAddress }`, expiring after
      `JWT_EXPIRATION` when set and non-empty, else one hour. */
  function GenerateToken(id: string, ethereumAddress: string, jwtExpiration: Option<string>): (t: TokenRequest)
    ensures t.claims.userId == Some(id) && t.claims.ethereumAddress == Some(ethereumAddress)
    ensures t.expiresIn != ""
    ensures Truthy(jwtExpiration) ==> t.expiresIn == jwtExpiration.value
    ensures !Truthy(jwtExpiration) ==> t.expiresIn == DefaultExpiration
  {
    TokenRequest(Claims(Some(id), Some(ethereumAddress)),
                 if Truthy(jwtExpiration) then jwtExpiration.value else DefaultExpiration)
  }

  /** A token issued for a stored user, presented as `Bearer <token>`, lets that
      user through: the two halves of the session credential fit together. */
  lemma {:induction false} IssuedTokenAuthenticates(users: seq<UserRow>, i: nat, token: string,
                                                    verify: string -> Verification, jwtExpiration: Option<string>)
    requires UsersOk(users) && i < |users| && users[i].id != ""
    requires token != "" && ' ' !in token
    requires verify(token) == Decoded(GenerateToken(users[i].id, users[i].ethereumAddress, jwtExpiration).claims)
    ensures Authenticate(Some("Bearer " + token), verify, users) == Success(View(users[i]))
  {
    SplitJoin(["Bearer", token], ' ');
    assert Join(["Bearer", token], ' ') == "Bearer " + token;
    var found := FindUser(users, users[i].id);
    var j :| 0 <= j < |users| && users[j] == found.value;
  }

  /** The Express request and `next` as the middleware chain sees them: the
      `req.user` field, and the list of calls made to `next` (`None` for
      `next()`, `Some(e)` for `next(e)`). */
  class Exchange {
    var user: Option<UserView>
    var nextCalls: seq<Option<ErrorValue>>

    constructor ()
      ensures user == None && nextCalls == []
    {
      user := None;
      nextCalls := [];
    }

    /** One run of `authMiddleware`: exactly one call to `next`, and `req.user`
        is written only on success. */
    method RunAuthMiddleware(header: Option<string>, verify: string -> Verification, users: seq<UserRow>)
      modifies this
      ensures var r := Authenticate(header, verify, users);
        && (r.Success? ==> user == Some(r.value) && nextCalls == old(nextCalls) + [None])
        && (r.Failure? ==> user == old(user) && nextCalls == old(nextCalls) + [Some(r.error)])
    {
      var outcome := Authenticate(header, verify, users);
      if outcome.Success? {
        user := Some(outcome.value);
        nextCalls := nextCalls + [None];
      } else {
        nextCalls := nextCalls + [Some(outcome.error)];
      }
    }
  }
}
