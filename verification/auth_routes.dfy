/** The `/api/auth` routes: sign-in with an Ethereum signature (find-or-create
    the user, record the login, issue a JSON Web Token) and the `/profile`
    lookup. Signature recovery (`ethers.verifyMessage`), token signing and token
    verification are opaque and passed in as functions. */
module AuthRoutes {
  import opened Wrappers
  import opened Text
  import opened Errors
  import opened Models
  import opened AuthMiddleware

  const InputsRequired: string := "Message, signature, and address are required"
  const InvalidSignature: string := "Invalid signature"
  const AddressMismatch: string := "Signature does not match the provided address"
  const InternalServerError: string := "Internal server error"
  const InvalidOrExpiredToken: string := "Invalid or expired token"
  /** The messages of the database errors a first login can raise. */
  const LowercaseViolation: string := "Validation error: Validation isLowercase on ethereumAddress failed"
  const UniqueViolation: string := "Validation error"

  /** The JSON body of `POST /authenticate`; `None` for a missing field. */
  datatype AuthBody = AuthBody(message: Option<string>, signature: Option<string>, address: Option<string>)

  /** The reply of `POST /authenticate`: an error status with a message (and
      `details` in development), or the token and the user. */
  datatype AuthReply =
    | Refused(status: int, message: string, details: Option<string>)
    | LoggedIn(token: string, user: UserView)

  /** The outer `catch`: status 500, the error's message only in development. */
  function Internal(nodeEnv: Option<string>, cause: string): (r: AuthReply)
    ensures r.Refused? && r.status == 500 && r.message == InternalServerError
    ensures r.details.Some? <==> IsDevelopment(nodeEnv)
    ensures r.details.Some? ==> r.details.value == cause
  {
    Refused(500, InternalServerError, if IsDevelopment(nodeEnv) then Some(cause) else None)
  }

  predicate InputsPresent(body: AuthBody) {
    Truthy(body.message) && Truthy(body.signature) && Truthy(body.address)
  }

  /** The body is complete, the signature recovers an address, and that
      address equals the claimed one after lower-casing both. */
  predicate AddressMatches(body: AuthBody, recover: (string, string) -> Option<string>) {
    && InputsPresent(body)
    && recover(body.message.value, body.signature.value).Some?
    && Lower(recover(body.message.value, body.signature.value).value) == Lower(body.address.value)
  }

  /** The first row whose address is exactly `address` (the `where` of
      `findOrCreate`; the comparison is case-sensitive). */
  function IndexOfAddress(rows: seq<UserRow>, address: string, from: nat := 0): (r: Option<nat>)
    requires from <= |rows|
    decreases |rows| - from
    ensures r.Some? ==>
      && from <= r.value < |rows| && rows[r.value].ethereumAddress == address
      && (forall k :: from <= k < r.value ==> rows[k].ethereumAddress != address)
    ensures r.None? ==> forall k :: from <= k < |rows| ==> rows[k].ethereumAddress != address
  {
    if from == |rows| then None
    else if rows[from].ethereumAddress == address then Some(from)
    else IndexOfAddress(rows, address, from + 1)
  }

  predicate HasUserId(rows: seq<UserRow>, id: string) {
    exists k :: 0 <= k < |rows| && rows[k].id == id
  }

  /** The token handed out for `user`. */
  function IssueToken(user: UserRow, sign: TokenRequest -> string, jwtExpiration: Option<string>): string {
    sign(GenerateToken(user.id, user.ethereumAddress, jwtExpiration))
  }

  /** One `POST /authenticate` against the `users` table `rows`: the reply and
      the table afterwards. `recover` is `ethers.verifyMessage` (`None` when it
      throws), `freshId` the UUID a created row would get, `now` the clock. */
  function SignIn(rows: seq<UserRow>, body: AuthBody, recover: (string, string) -> Option<string>,
                 sign: TokenRequest -> string, jwtExpiration: Option<string>, nodeEnv: Option<string>,
                 freshId: string, now: int): (out: (AuthReply, seq<UserRow>))
    // Missing input is refused before the signature is looked at.
    ensures !InputsPresent(body) ==> out == (Refused(400, InputsRequired, None), rows)
    ensures (out.0.Refused? && out.0.status == 400) <==> !InputsPresent(body)
    ensures InputsPresent(body) && recover(body.message.value, body.signature.value).None? ==>
      out == (Refused(401, InvalidSignature, None), rows)
    ensures InputsPresent(body) && recover(body.message.value, body.signature.value).Some?
            && !AddressMatches(body, recover) ==>
      out == (Refused(401, AddressMismatch, None), rows)
    // A sign-in succeeds exactly when the address matches and the user is found or can be inserted.
    ensures out.0.LoggedIn? <==>
      && AddressMatches(body, recover)
      && var signer := recover(body.message.value, body.signature.value).value;
      (IndexOfAddress(rows, signer).Some? || (IsLowercase(signer) && !HasUserId(rows, freshId)))
    // An existing user: only its `lastLogin` and `updatedAt` change.
    ensures AddressMatches(body, recover) ==>
      var signer := recover(body.message.value, body.signature.value).value;
      IndexOfAddress(rows, signer).Some? ==>
        var i := IndexOfAddress(rows, signer).value;
        out.1 == rows[i := rows[i].(lastLogin := Some(now), updatedAt := now)]
    // A new user: one row with the fresh id and the recovered address is appended.
    ensures AddressMatches(body, recover) ==>
      var signer := recover(body.message.value, body.signature.value).value;
      IndexOfAddress(rows, signer).None? && IsLowercase(signer) && !HasUserId(rows, freshId) ==>
        out.1 == rows + [UserRow(freshId, signer, Some(now), now, now)]
    // A failed insert is the outer catch's 500.
    ensures AddressMatches(body, recover) ==>
      var signer := recover(body.message.value, body.signature.value).value;
      IndexOfAddress(rows, signer).None? && !IsLowercase(signer) ==>
        out == (Internal(nodeEnv, LowercaseViolation), rows)
    ensures AddressMatches(body, recover) ==>
      var signer := recover(body.message.value, body.signature.value).value;
      IndexOfAddress(rows, signer).None? && IsLowercase(signer) && HasUserId(rows, freshId) ==>
        out == (Internal(nodeEnv, UniqueViolation), rows)
    ensures out.0.Refused? ==> out.1 == rows
    ensures out.0.Refused? ==> out.0.status in {400, 401, 500}
    ensures out.0.LoggedIn? ==>
      && InputsPresent(body)
      && recover(body.message.value, body.signature.value).Some?
      && var signer := recover(body.message.value, body.signature.value).value;
      && Lower(signer) == Lower(body.address.value)
      && exists i :: 0 <= i < |out.1| && out.1[i].ethereumAddress == signer
           && out.1[i].lastLogin == Some(now) && out.0.user == View(out.1[i])
           && out.0.token == IssueToken(out.1[i], sign, jwtExpiration)
    ensures UsersOk(rows) ==> UsersOk(out.1)
    ensures |out.1| == |rows| || (|out.1| == |rows| + 1 && out.1[..|rows|] == rows)
  {
    if !InputsPresent(body) then (Refused(400, InputsRequired, None), rows)
    else match recover(body.message.value, body.signature.value)
      case None => (Refused(401, InvalidSignature, None), rows)
      case Some(signer) =>
        if Lower(signer) != Lower(body.address.value) then (Refused(401, AddressMismatch, None), rows)
        else match IndexOfAddress(rows, signer)
          case Some(i) =>
            // An existing user: `lastLogin` is set and saved.
            var user := rows[i].(lastLogin := Some(now), updatedAt := now);
            assert rows[i := user][i] == user;
            (LoggedIn(IssueToken(user, sign, jwtExpiration), View(user)), rows[i := user])
          case None =>
            // A new user: the insert must pass the lowercase validator and the primary key.
            if !IsLowercase(signer) then (Internal(nodeEnv, LowercaseViolation), rows)
            else if HasUserId(rows, freshId) then (Internal(nodeEnv, UniqueViolation), rows)
            else
              var user := UserRow(freshId, signer, Some(now), now, now);
              assert (rows + [user])[|rows|] == user;
              (LoggedIn(IssueToken(user, sign, jwtExpiration), View(user)), rows + [user])
  }

  /** Signing in twice with signatures from the same address reaches the same
      user row, whatever happened to be created the first time. */
  lemma {:induction false} RepeatLoginSameUser(rows: seq<UserRow>, first: AuthBody, second: AuthBody,
      recover: (string, string) -> Option<string>, sign: TokenRequest -> string,
      jwtExpiration: Option<string>, nodeEnv: Option<string>, id1: string, id2: string, t1: int, t2: int)
    requires SignIn(rows, first, recover, sign, jwtExpiration, nodeEnv, id1, t1).0.LoggedIn?
    requires InputsPresent(second)
    requires recover(second.message.value, second.signature.value) == recover(first.message.value, first.signature.value)
    requires Lower(second.address.value) == Lower(first.address.value)
    ensures var (r1, after) := SignIn(rows, first, recover, sign, jwtExpiration, nodeEnv, id1, t1);
      var (r2, final) := SignIn(after, second, recover, sign, jwtExpiration, nodeEnv, id2, t2);
      && r2.LoggedIn? && r2.user.id == r1.user.id && r2.user.ethereumAddress == r1.user.ethereumAddress
      && |final| == |after|
  {
    var (r1, after) := SignIn(rows, first, recover, sign, jwtExpiration, nodeEnv, id1, t1);
    var signer := recover(first.message.value, first.signature.value).value;
    match IndexOfAddress(rows, signer)
    case Some(i) =>
      assert after == rows[i := rows[i].(lastLogin := Some(t1), updatedAt := t1)];
      assert after[i].ethereumAddress == signer;
      assert forall k :: 0 <= k < i ==> after[k] == rows[k];
      assert IndexOfAddress(after, signer) == Some(i);
    case None =>
      var user := UserRow(id1, signer, Some(t1), t1, t1);
      assert after == rows + [user];
      assert IndexOfAddress(after, signer) == Some(|rows|);
  }

  /** As written, a first sign-in from an address that is not all lower case
      (such as the mixed-case checksummed form `verifyMessage` returns) never
      finds a row and fails the lowercase validator: a 500 and no new user. */
  lemma {:induction false} MixedCaseFirstLoginFails(rows: seq<UserRow>, body: AuthBody,
      recover: (string, string) -> Option<string>, sign: TokenRequest -> string,
      jwtExpiration: Option<string>, nodeEnv: Option<string>, freshId: string, now: int)
    requires UsersOk(rows) && InputsPresent(body)
    requires recover(body.message.value, body.signature.value).Some?
    requires !IsLowercase(recover(body.message.value, body.signature.value).value)
    requires Lower(recover(body.message.value, body.signature.value).value) == Lower(body.address.value)
    ensures SignIn(rows, body, recover, sign, jwtExpiration, nodeEnv, freshId, now)
            == (Internal(nodeEnv, LowercaseViolation), rows)
  {
    var signer := recover(body.message.value, body.signature.value).value;
    forall k | 0 <= k < |rows|
      ensures rows[k].ethereumAddress != signer
    {
      assert IsLowercase(rows[k].ethereumAddress);
    }
  }

  /** The `users` table with find-or-create and the `lastLogin` update. */
  class UserTable {
    var rows: seq<UserRow>

    ghost predicate Valid()
      reads this
    {
      UsersOk(rows)
    }

    constructor ()
      ensures Valid() && rows == []
    {
      rows := [];
    }

    /** `POST /authenticate`: the input checks, then `findOrCreate`, then the
        `lastLogin` update of an existing row. */
    method Authenticate(body: AuthBody, recover: (string, string) -> Option<string>,
                        sign: TokenRequest -> string, jwtExpiration: Option<string>,
                        nodeEnv: Option<string>, freshId: string, now: int) returns (reply: AuthReply)
      modifies this
      ensures (reply, rows) == SignIn(old(rows), body, recover, sign, jwtExpiration, nodeEnv, freshId, now)
      ensures old(Valid()) ==> Valid()
    {
      if !InputsPresent(body) {
        return Refused(400, InputsRequired, None);
      }
      var recovered := recover(body.message.value, body.signature.value);
      if recovered.None? {
        return Refused(401, InvalidSignature, None);
      }
      var signer := recovered.value;
      if Lower(signer) != Lower(body.address.value) {
        return Refused(401, AddressMismatch, None);
      }
      var i := 0;
      while i < |rows| && rows[i].ethereumAddress != signer
        invariant 0 <= i <= |rows|
        invariant forall k :: 0 <= k < i ==> rows[k].ethereumAddress != signer
      {
        i := i + 1;
      }
      if i < |rows| {
        assert IndexOfAddress(rows, signer) == Some(i);
        var user := rows[i].(lastLogin := Some(now), updatedAt := now);
        rows := rows[i := user];
        reply := LoggedIn(IssueToken(user, sign, jwtExpiration), View(user));
      } else if !IsLowercase(signer) {
        reply := Internal(nodeEnv, LowercaseViolation);
      } else if HasUserId(rows, freshId) {
        reply := Internal(nodeEnv, UniqueViolation);
      } else {
        var user := UserRow(freshId, signer, Some(now), now, now);
        rows := rows + [user];
        reply := LoggedIn(IssueToken(user, sign, jwtExpiration), View(user));
      }
    }
  }

  /** The reply of `GET /profile`. */
  datatype ProfileReply = ProfileRefused(status: int, message: string) | ProfileUser(user: UserView)

  /** The token `/profile` uses: the second space-separated part of the header,
      whatever the first part says (`undefined` when there is none). */
  function SecondPart(header: string): (t: Option<string>)
    ensures t.Some? <==> |Split(header, ' ')| >= 2
    ensures t.Some? ==> t.value == Split(header, ' ')[1] && ' ' !in t.value
  {
    var parts := Split(header, ' ');
    if |parts| >= 2 then Some(parts[1]) else None
  }

  /** `GET /profile`. An undefined token fails verification; an undefined
      `userId` makes `findByPk` return null. */
  function Profile(header: Option<string>, verify: string -> Verification, users: seq<UserRow>): (r: ProfileReply)
    ensures !Truthy(header) ==> r == ProfileRefused(401, NoTokenProvided)
    ensures Truthy(header) && SecondPart(header.value).None? ==> r == ProfileRefused(401, InvalidOrExpiredToken)
    ensures Truthy(header) && SecondPart(header.value).Some? && verify(SecondPart(header.value).value).VerifyError?
            ==> r == ProfileRefused(401, InvalidOrExpiredToken)
    ensures r.ProfileRefused? ==> r.status in {401, 404}
    ensures (r.ProfileRefused? && r.status == 401) <==>
      (!Truthy(header) || SecondPart(header.value).None? || verify(SecondPart(header.value).value).VerifyError?)
    // A decoded token gets the user exactly when some row has its `userId`.
    ensures r == ProfileRefused(404, UserNotFound) <==>
      && Truthy(header) && SecondPart(header.value).Some?
      && verify(SecondPart(header.value).value).Decoded?
      && forall i :: 0 <= i < |users| ==> Some(users[i].id) != verify(SecondPart(header.value).value).claims.userId
    ensures (r.ProfileRefused? && r.status == 404) ==> r.message == UserNotFound
    ensures r.ProfileUser? ==>
      && Truthy(header) && SecondPart(header.value).Some?
      && verify(SecondPart(header.value).value).Decoded?
      && exists i :: 0 <= i < |users| && r.user == View(users[i])
           && verify(SecondPart(header.value).value).claims.userId == Some(users[i].id)
  {
    if !Truthy(header) then ProfileRefused(401, NoTokenProvided)
    else match SecondPart(header.value)
      case None => ProfileRefused(401, InvalidOrExpiredToken)
      case Some(token) =>
        match verify(token)
        case VerifyError(_) => ProfileRefused(401, InvalidOrExpiredToken)
        case Decoded(claims) =>
          if claims.userId.None? then ProfileRefused(404, UserNotFound)
          else match FindUser(users, claims.userId.value)
            case None => ProfileRefused(404, UserNotFound)
            case Some(row) =>
              var i :| 0 <= i < |users| && users[i] == row;
              ProfileUser(View(row))
  }

  /** `/profile` does not look at the scheme word: any word in front of the
      token gives the same reply as `Bearer`. */
  lemma {:induction false} ProfileIgnoresScheme(scheme: string, token: string,
                                                verify: string -> Verification, users: seq<UserRow>)
    requires ' ' !in scheme && ' ' !in token
    ensures Profile(Some(scheme + " " + token), verify, users) == Profile(Some("Bearer " + token), verify, users)
  {
    SplitJoin([scheme, token], ' ');
    SplitJoin(["Bearer", token], ' ');
    assert Join([scheme, token], ' ') == scheme + " " + token;
    assert Join(["Bearer", token], ' ') == "Bearer " + token;
  }

  /** Every header the middleware lets through is accepted by `/profile` too,
      with the same user: `/profile` is the laxer of the two token checks. */
  lemma {:induction false} MiddlewareAcceptedProfileAccepts(header: Option<string>,
                                                           verify: string -> Verification, users: seq<UserRow>)
    requires AuthMiddleware.Authenticate(header, verify, users).Success?
    ensures Profile(header, verify, users) == ProfileUser(AuthMiddleware.Authenticate(header, verify, users).value)
  {
    var token := ExtractToken(header).value;
    assert SecondPart(header.value) == Some(token);
  }
}
