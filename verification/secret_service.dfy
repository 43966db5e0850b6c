/** `SecretService`: input validation, and the owner-scoped create, read,
    update, delete, list and search over the `secrets` table. The table is the
    `rows` field of a `SecretStore`; every lookup filters on `id` and `userId`
    together, so another owner's secret looks exactly like a missing one. */
module SecretService {
  import opened Wrappers
  import opened Text
  import opened Errors
  import opened Models
  import opened Crypto
  import opened Query

  const MaxNameLength: nat := 100
  const DefaultLimit: int := 10
  const DefaultOffset: int := 0

  const NameRequired: string := "Secret name is required"
  const ValueRequired: string := "Secret value is required"
  const NameTooLong: string := "Secret name must be less than 100 characters"
  const InvalidCategory: string := "Invalid category. Must be one of: PASSWORD, API_KEY, NOTE, OTHER"
  const SecretNotFound: string := "Secret not found"
  const CreateFailed: string := "Failed to create secret: "
  /** The inner message of the unique-constraint error on a primary key clash. */
  const DuplicateKey: string := "id must be unique"

  /** The fields of a request body the service reads; `None` is `undefined`. */
  datatype SecretInput = SecretInput(name: Option<string>, value: Option<string>, category: Option<string>)

  /** Where the master key and the cipher library come from:
      `process.env.DATABASE_ENCRYPTION_KEY` (possibly unset) and the primitives. */
  datatype Keyring = Keyring(prims: Primitives, masterKey: Option<string>)

  /** The category check of `validateSecretInput`: absent, empty or a known name. */
  predicate CategoryAcceptable(category: Option<string>) {
    !Truthy(category) || ParseCategory(category.value).Some?
  }

  /** `validateSecretInput`: four checks in a fixed order; the first that fails
      decides the ValidationError. */
  function ValidateSecretInput(input: SecretInput): (r: Outcome<ErrorValue>)
    ensures r.Pass? <==>
      && Truthy(input.name) && Truthy(input.value)
      && |input.name.value| <= MaxNameLength
      && CategoryAcceptable(input.category)
    ensures r.Fail? ==> StatusCode(r.error) == 400 && r.error.name == "ValidationError"
    ensures !Truthy(input.name) ==> r == Fail(ValidationError(NameRequired))
    ensures Truthy(input.name) && !Truthy(input.value) ==> r == Fail(ValidationError(ValueRequired))
    ensures Truthy(input.name) && Truthy(input.value) && |input.name.value| > MaxNameLength
      ==> r == Fail(ValidationError(NameTooLong))
    ensures (Truthy(input.name) && Truthy(input.value) && |input.name.value| <= MaxNameLength
             && !CategoryAcceptable(input.category)) ==> r == Fail(ValidationError(InvalidCategory))
  {
    if !Truthy(input.name) then Fail(ValidationError(NameRequired))
    else if !Truthy(input.value) then Fail(ValidationError(ValueRequired))
    else if |input.name.value| > MaxNameLength then Fail(ValidationError(NameTooLong))
    else if Truthy(input.category) && ParseCategory(input.category.value).None? then
      Fail(ValidationError(InvalidCategory))
    else Pass
  }

  /** The boundary of the length check: 100 characters pass, 101 do not. */
  lemma NameLengthBoundary(name: string, value: string)
    requires value != ""
    ensures |name| == 100 ==> ValidateSecretInput(SecretInput(Some(name), Some(value), None)).Pass?
    ensures |name| == 101 ==> ValidateSecretInput(SecretInput(Some(name), Some(value), None))
                              == Fail(ValidationError(NameTooLong))
  {
  }

  /** `secretData.category || 'OTHER'` for a category that passed validation. */
  function CategoryOrDefault(category: Option<string>): (c: Category)
    requires CategoryAcceptable(category)
    ensures !Truthy(category) ==> c == Other
    ensures Truthy(category) ==> CategoryName(c) == category.value
  {
    if Truthy(category) then ParseCategory(category.value).value else Other
  }

  /** The index of the row that `findOne({ where: { id, userId } })` returns. */
  function FindOne(rows: seq<SecretRow>, id: string, userId: string): (r: Option<nat>)
    ensures r.Some? ==> r.value < |rows| && rows[r.value].id == id && rows[r.value].userId == userId
    ensures r.None? <==> forall i :: 0 <= i < |rows| ==> !(rows[i].id == id && rows[i].userId == userId)
  {
    if rows == [] then None
    else if rows[0].id == id && rows[0].userId == userId then Some(0)
    else match FindOne(rows[1..], id, userId)
      case None => None
      case Some(k) => Some(k + 1)
  }

  /** Removing row `i` of a table with unique ids keeps the others in order,
      keeps the ids unique and leaves no row with the removed id. */
  lemma RemoveRow(rows: seq<SecretRow>, i: nat)
    requires UniqueSecretIds(rows) && i < |rows|
    ensures var t := rows[..i] + rows[i + 1..];
      && |t| == |rows| - 1
      && (forall j :: 0 <= j < |t| ==> t[j] == (if j < i then rows[j] else rows[j + 1]))
      && UniqueSecretIds(t)
      && !HasSecretId(t, rows[i].id)
  {
    var t := rows[..i] + rows[i + 1..];
    forall j | 0 <= j < |t|
      ensures t[j] == (if j < i then rows[j] else rows[j + 1])
    {
      if j < i {
        assert t[j] == rows[..i][j];
      } else {
        assert t[j] == rows[i + 1..][j - i];
      }
    }
  }

  /** With unique ids, a secret owned by one user is invisible to every other user. */
  lemma OtherOwnerSeesNothing(rows: seq<SecretRow>, i: nat, other: string)
    requires UniqueSecretIds(rows)
    requires i < |rows| && rows[i].userId != other
    ensures FindOne(rows, rows[i].id, other).None?
  {
  }

  /** The only fields a list, search or single read exposes. */
  datatype SecretSummary = SecretSummary(id: string, name: string, category: Category, createdAt: int)

  function Summary(row: SecretRow): SecretSummary {
    SecretSummary(row.id, row.name, row.category, row.createdAt)
  }

  /** The summary does not depend on the stored payload. */
  lemma SummaryHidesPayload(row: SecretRow, payload: string)
    ensures Summary(row.(encryptedValue := payload)) == Summary(row)
  {
  }

  /** The `where` object a list or search builds: owner, then optional filters. */
  datatype SecretWhere = SecretWhere(userId: string, category: Option<string>, nameLike: Option<string>)

  predicate MatchesWhere(row: SecretRow, where: SecretWhere) {
    && row.userId == where.userId
    && (where.category.Some? ==> CategoryName(row.category) == where.category.value)
    && (where.nameLike.Some? ==> Contains(row.name, where.nameLike.value))
  }

  function SummaryCreatedAt(s: SecretSummary): int {
    s.createdAt
  }

  function RowCreatedAt(r: SecretRow): int {
    r.createdAt
  }

  function Summaries(rows: seq<SecretRow>): (r: seq<SecretSummary>)
    ensures |r| == |rows|
    ensures forall i :: 0 <= i < |rows| ==> r[i] == Summary(rows[i])
  {
    seq(|rows|, i requires 0 <= i < |rows| => Summary(rows[i]))
  }

  /** `Secret.findAndCountAll` with attributes id, name, category, createdAt,
      ordered by createdAt descending. */
  function FindAndCountAll(rows: seq<SecretRow>, where: SecretWhere, limit: int, offset: int)
    : (page: Page<SecretSummary>)
    ensures page.count == |Filter(rows, r => MatchesWhere(r, where))|
    ensures forall k :: 0 <= k < |page.rows| ==>
      exists i :: 0 <= i < |rows| && MatchesWhere(rows[i], where) && page.rows[k] == Summary(rows[i])
    ensures SortedDesc(page.rows, SummaryCreatedAt)
    ensures |page.rows| <= page.count
    ensures limit >= 0 ==> |page.rows| <= limit
    ensures offset >= page.count ==> page.rows == []
    ensures 0 <= offset && 0 <= limit && offset + limit <= page.count ==> |page.rows| == limit
    // The page is the `LIMIT`/`OFFSET` window of the matches put newest first.
    ensures exists ord :: (SortedDesc(ord, RowCreatedAt)
      && multiset(ord) == multiset(Filter(rows, r => MatchesWhere(r, where)))
      && page.rows == Summaries(Window(ord, limit, offset)))
  {
    var matching := Filter(rows, r => MatchesWhere(r, where));
    var window := Window(SortDesc(matching, RowCreatedAt), limit, offset);
    PageOfSorted(matching, RowCreatedAt, limit, offset);
    SortDescSorted(matching, RowCreatedAt);
    var page := Page(|matching|, Summaries(window));
    forall k | 0 <= k < |page.rows|
      ensures exists i :: 0 <= i < |rows| && MatchesWhere(rows[i], where) && page.rows[k] == Summary(rows[i])
    {
      var j :| 0 <= j < |matching| && matching[j] == window[k];
      var i :| 0 <= i < |rows| && rows[i] == matching[j];
    }
    assert SortedDesc(page.rows, SummaryCreatedAt) by {
      forall a, b | 0 <= a < b < |page.rows| ensures page.rows[a].createdAt >= page.rows[b].createdAt {
        assert RowCreatedAt(window[a]) >= RowCreatedAt(window[b]);
      }
    }
    page
  }

  /** Options of `listSecrets`; `None` means the key was not given. */
  datatype ListOptions = ListOptions(limit: Option<int>, offset: Option<int>, category: Option<string>, search: Option<string>)

  /** Options of `searchSecrets`. */
  datatype SearchOptions = SearchOptions(query: Option<string>, category: Option<string>, limit: Option<int>, offset: Option<int>)

  /** Sequelize's `update`: the given fields replace the stored ones, and
      `updatedAt` moves to `now` only when some field actually changed. */
  function Revise(current: SecretRow, name: string, category: Category, payload: string, now: int): (u: SecretRow)
    ensures u.id == current.id && u.userId == current.userId
    ensures u.name == name && u.category == category && u.encryptedValue == payload
    ensures u.metadata == current.metadata && u.createdAt == current.createdAt
    ensures u.updatedAt == (if u.(updatedAt := current.updatedAt) == current then current.updatedAt else now)
  {
    var changed := current.(name := name, category := category, encryptedValue := payload);
    if changed == current then current else changed.(updatedAt := now)
  }

  /** The in-memory `secrets` table. */
  class SecretStore {
    var rows: seq<SecretRow>

    /** Unique primary keys, and every stored name passed validation. */
    ghost predicate Valid()
      reads this
    {
      && UniqueSecretIds(rows)
      && forall i :: 0 <= i < |rows| ==> 0 < |rows[i].name| <= MaxNameLength
    }

    constructor ()
      ensures Valid() && rows == []
    {
      rows := [];
    }

    /** `createSecret(userId, secretData)`: validate, then encrypt, then insert.
        `freshId` is the UUID the model's default would generate; a clash with an
        existing key is the unique-constraint failure, rethrown as ValidationError. */
    method CreateSecret(userId: string, input: SecretInput, keyring: Keyring, random: SaltBytes, iv: IvBytes,
                        freshId: string, now: int)
      returns (r: Result<SecretRow, ErrorValue>)
      requires Valid()
      modifies this
      ensures Valid()
      ensures ValidateSecretInput(input).Fail? ==> r == Failure(ValidateSecretInput(input).error)
      ensures ValidateSecretInput(input).Pass? && keyring.masterKey.None? ==>
        r == Failure(PlainError(EncryptionFailed + MissingKeyCause))
      ensures ValidateSecretInput(input).Pass? && keyring.masterKey.Some? && HasSecretId(old(rows), freshId) ==>
        r == Failure(ValidationError(CreateFailed + DuplicateKey))
      ensures r.Failure? ==> rows == old(rows)
      ensures r.Success? <==>
        ValidateSecretInput(input).Pass? && keyring.masterKey.Some? && !HasSecretId(old(rows), freshId)
      ensures r.Success? ==>
        && rows == old(rows) + [r.value]
        && r.value.id == freshId && r.value.userId == userId
        && Some(r.value.name) == input.name
        && r.value.category == CategoryOrDefault(input.category)
        && r.value.metadata == map[]
        && r.value.createdAt == now && r.value.updatedAt == now
      ensures r.Success? && Sound(keyring.prims) ==>
        && WellFramed(r.value.encryptedValue)
        && DecryptValue(r.value.encryptedValue, keyring.masterKey, keyring.prims) == Success(input.value.value)
    {
      var check := ValidateSecretInput(input);
      if check.Fail? {
        return Failure(check.error);
      }
      var encrypted := EncryptValue(input.value.value, keyring.masterKey, random, iv, keyring.prims);
      if encrypted.Failure? {
        return Failure(encrypted.error);
      }
      if HasSecretId(rows, freshId) {
        return Failure(ValidationError(CreateFailed + DuplicateKey));
      }
      var row := SecretRow(freshId, input.name.value, encrypted.value, CategoryOrDefault(input.category),
                           userId, map[], now, now);
      rows := rows + [row];
      r := Success(row);
      if Sound(keyring.prims) {
        EncryptFrames(input.value.value, keyring.masterKey.value, random, iv, keyring.prims);
        DecryptEncrypt(input.value.value, keyring.masterKey.value, random, iv, keyring.prims);
      }
    }

    /** `getSecretById(userId, secretId)`. */
    function GetSecretById(userId: string, secretId: string): (r: Result<SecretRow, ErrorValue>)
      reads this
      ensures r.Success? <==> exists i :: 0 <= i < |rows| && rows[i].id == secretId && rows[i].userId == userId
      ensures r.Success? ==> r.value in rows && r.value.id == secretId && r.value.userId == userId
      ensures r.Failure? ==> r.error == NotFoundError(SecretNotFound)
    {
      match FindOne(rows, secretId, userId)
      case None => Failure(NotFoundError(SecretNotFound))
      case Some(i) => Success(rows[i])
    }

    /** `updateSecret(userId, secretId, updateData)`: validate (which demands a
        value, so every update re-encrypts), find the owner's row, then set the
        name, the category (kept when none is given) and the new payload.
        `updatedAt` moves only when a field changed, as Sequelize saves only then. */
    method UpdateSecret(userId: string, secretId: string, input: SecretInput, keyring: Keyring,
                        random: SaltBytes, iv: IvBytes, now: int)
      returns (r: Result<SecretRow, ErrorValue>)
      requires Valid()
      modifies this
      ensures Valid()
      ensures r.Failure? ==> rows == old(rows)
      ensures ValidateSecretInput(input).Fail? ==> r == Failure(ValidateSecretInput(input).error)
      ensures ValidateSecretInput(input).Pass? && FindOne(old(rows), secretId, userId).None? ==>
        r == Failure(NotFoundError(SecretNotFound))
      ensures ValidateSecretInput(input).Pass? && FindOne(old(rows), secretId, userId).Some?
              && keyring.masterKey.None? ==>
        r == Failure(PlainError(EncryptionFailed + MissingKeyCause))
      ensures r.Success? <==>
        ValidateSecretInput(input).Pass? && FindOne(old(rows), secretId, userId).Some? && keyring.masterKey.Some?
      ensures r.Success? ==>
        var i := FindOne(old(rows), secretId, userId).value;
        && rows == old(rows)[i := r.value]
        && r.value.id == secretId && r.value.userId == userId
        && Some(r.value.name) == input.name
        && r.value.category == (if Truthy(input.category) then CategoryOrDefault(input.category) else old(rows)[i].category)
        && r.value.metadata == old(rows)[i].metadata
        && r.value.createdAt == old(rows)[i].createdAt
        && r.value.updatedAt == (if r.value.(updatedAt := old(rows)[i].updatedAt) == old(rows)[i] then old(rows)[i].updatedAt else now)
        && r.value == Revise(old(rows)[i], input.name.value,
                             if Truthy(input.category) then CategoryOrDefault(input.category) else old(rows)[i].category,
                             r.value.encryptedValue, now)
      ensures r.Success? && Sound(keyring.prims) ==>
        DecryptValue(r.value.encryptedValue, keyring.masterKey, keyring.prims) == Success(input.value.value)
    {
      var check := ValidateSecretInput(input);
      if check.Fail? {
        return Failure(check.error);
      }
      var found := FindOne(rows, secretId, userId);
      if found.None? {
        return Failure(NotFoundError(SecretNotFound));
      }
      var i := found.value;
      var current := rows[i];
      var category := if Truthy(input.category) then CategoryOrDefault(input.category) else current.category;
      var payload := current.encryptedValue;
      if Truthy(input.value) {
        var encrypted := EncryptValue(input.value.value, keyring.masterKey, random, iv, keyring.prims);
        if encrypted.Failure? {
          return Failure(encrypted.error);
        }
        payload := encrypted.value;
        if Sound(keyring.prims) {
          DecryptEncrypt(input.value.value, keyring.masterKey.value, random, iv, keyring.prims);
        }
      }
      var updated := Revise(current, input.name.value, category, payload, now);
      rows := rows[i := updated];
      r := Success(updated);
    }

    /** `deleteSecret(userId, secretId)`: destroy the owner's row and return true. */
    method DeleteSecret(userId: string, secretId: string) returns (r: Result<bool, ErrorValue>)
      requires Valid()
      modifies this
      ensures Valid()
      ensures FindOne(old(rows), secretId, userId).None? ==>
        r == Failure(NotFoundError(SecretNotFound)) && rows == old(rows)
      ensures FindOne(old(rows), secretId, userId).Some? ==>
        var i := FindOne(old(rows), secretId, userId).value;
        && r == Success(true)
        && rows == old(rows)[..i] + old(rows)[i + 1..]
        && !HasSecretId(rows, secretId)
        && FindOne(rows, secretId, userId).None?
    {
      var found := FindOne(rows, secretId, userId);
      if found.None? {
        return Failure(NotFoundError(SecretNotFound));
      }
      var i := found.value;
      RemoveRow(rows, i);
      rows := rows[..i] + rows[i + 1..];
      r := Success(true);
    }

    /** `listSecrets(userId, options)`: the owner's secrets, optionally filtered by
        category and by a substring of the name, newest first, one page. */
    method ListSecrets(userId: string, options: ListOptions) returns (page: Page<SecretSummary>)
      ensures page == FindAndCountAll(rows,
        SecretWhere(userId,
          if Truthy(options.category) then options.category else None,
          if Truthy(options.search) then options.search else None),
        options.limit.GetOr(DefaultLimit), options.offset.GetOr(DefaultOffset))
      ensures forall k :: 0 <= k < |page.rows| ==>
        exists i :: 0 <= i < |rows| && rows[i].userId == userId && page.rows[k] == Summary(rows[i])
      ensures options.limit.None? ==> |page.rows| <= DefaultLimit
    {
      var limit := options.limit.GetOr(DefaultLimit);
      var offset := options.offset.GetOr(DefaultOffset);
      var where := SecretWhere(userId, None, None);
      if Truthy(options.category) {
        where := where.(category := options.category);
      }
      if Truthy(options.search) {
        where := where.(nameLike := options.search);
      }
      page := FindAndCountAll(rows, where, limit, offset);
    }

    /** `searchSecrets(userId, options)`: the same query with the name filter
        taken from `query`. */
    method SearchSecrets(userId: string, options: SearchOptions) returns (page: Page<SecretSummary>)
      ensures page == FindAndCountAll(rows,
        SecretWhere(userId,
          if Truthy(options.category) then options.category else None,
          if Truthy(options.query) then options.query else None),
        options.limit.GetOr(DefaultLimit), options.offset.GetOr(DefaultOffset))
      ensures forall k :: 0 <= k < |page.rows| ==>
        exists i :: 0 <= i < |rows| && rows[i].userId == userId && page.rows[k] == Summary(rows[i])
      ensures options.limit.None? ==> |page.rows| <= DefaultLimit
    {
      var limit := options.limit.GetOr(DefaultLimit);
      var offset := options.offset.GetOr(DefaultOffset);
      var where := SecretWhere(userId, None, None);
      if Truthy(options.category) {
        where := where.(category := options.category);
      }
      if Truthy(options.query) {
        where := where.(nameLike := options.query);
      }
      page := FindAndCountAll(rows, where, limit, offset);
    }
  }
}
