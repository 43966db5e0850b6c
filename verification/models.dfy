/** The three Sequelize models: rows of the `secrets`, `audit_logs` and `users`
    tables, their enumerations, and the table-level invariants the schemas
    declare (primary keys, not-null columns, the unique lower-case address). */
module Models {
  import opened Wrappers
  import opened Text

  /** The `category` ENUM of a secret. */
  datatype Category = Password | ApiKey | Note | Other

  function CategoryName(c: Category): string {
    match c
    case Password => "PASSWORD"
    case ApiKey => "API_KEY"
    case Note => "NOTE"
    case Other => "OTHER"
  }

  /** The category a string names, if it is one of the four enumeration values. */
  function ParseCategory(s: string): (c: Option<Category>)
    ensures c.Some? ==> CategoryName(c.value) == s
    ensures c.None? ==> s !in {"PASSWORD", "API_KEY", "NOTE", "OTHER"}
  {
    if s == "PASSWORD" then Some(Password)
    else if s == "API_KEY" then Some(ApiKey)
    else if s == "NOTE" then Some(Note)
    else if s == "OTHER" then Some(Other)
    else None
  }

  lemma ParseCategoryName(c: Category)
    ensures ParseCategory(CategoryName(c)) == Some(c)
  {
  }

  /** The `action` ENUM of an audit row. */
  datatype AuditAction =
    | CreateSecret | UpdateSecret | DeleteSecret | ViewSecret
    | ViewSecrets | SearchSecrets | Login | Logout

  function ActionName(a: AuditAction): string {
    match a
    case CreateSecret => "CREATE_SECRET"
    case UpdateSecret => "UPDATE_SECRET"
    case DeleteSecret => "DELETE_SECRET"
    case ViewSecret => "VIEW_SECRET"
    case ViewSecrets => "VIEW_SECRETS"
    case SearchSecrets => "SEARCH_SECRETS"
    case Login => "LOGIN"
    case Logout => "LOGOUT"
  }

  /** The action a string names: one of the eight values of the column's ENUM. */
  function ParseAction(s: string): (a: Option<AuditAction>)
    ensures a.Some? ==> ActionName(a.value) == s
    ensures a.None? ==> forall x: AuditAction :: ActionName(x) != s
  {
    if s == "CREATE_SECRET" then Some(CreateSecret)
    else if s == "UPDATE_SECRET" then Some(UpdateSecret)
    else if s == "DELETE_SECRET" then Some(DeleteSecret)
    else if s == "VIEW_SECRET" then Some(ViewSecret)
    else if s == "VIEW_SECRETS" then Some(ViewSecrets)
    else if s == "SEARCH_SECRETS" then Some(SearchSecrets)
    else if s == "LOGIN" then Some(Login)
    else if s == "LOGOUT" then Some(Logout)
    else None
  }

  lemma ParseActionName(a: AuditAction)
    ensures ParseAction(ActionName(a)) == Some(a)
  {
  }

  /** A value of a JSONB metadata object. */
  datatype MetaValue = MetaString(s: string) | MetaNumber(n: int)

  /** A JSONB object; a key whose value was `undefined` is absent. */
  type Metadata = map<string, MetaValue>

  /** A row of `secrets`. Not-null columns are plain fields; `category` has the
      ENUM type; `metadata` defaults to `{}`; timestamps are assigned by the store. */
  datatype SecretRow = SecretRow(
    id: string,
    name: string,
    encryptedValue: string,
    category: Category,
    userId: string,
    metadata: Metadata,
    createdAt: int,
    updatedAt: int)

  /** A row of `audit_logs`; `resourceId` and `ipAddress` are nullable. */
  datatype AuditRow = AuditRow(
    id: string,
    userId: string,
    action: AuditAction,
    resourceId: Option<string>,
    metadata: Metadata,
    ipAddress: Option<string>,
    createdAt: int,
    updatedAt: int)

  /** A row of `users`; `lastLogin` is nullable. */
  datatype UserRow = UserRow(
    id: string,
    ethereumAddress: string,
    lastLogin: Option<int>,
    createdAt: int,
    updatedAt: int)

  /** Primary keys: no two rows of `secrets` share an `id`. */
  ghost predicate UniqueSecretIds(rows: seq<SecretRow>) {
    forall i, j :: 0 <= i < j < |rows| ==> rows[i].id != rows[j].id
  }

  ghost predicate UniqueAuditIds(rows: seq<AuditRow>) {
    forall i, j :: 0 <= i < j < |rows| ==> rows[i].id != rows[j].id
  }

  /** The `users` table: unique ids, unique addresses, every address lower case. */
  ghost predicate UsersOk(rows: seq<UserRow>) {
    && (forall i, j :: 0 <= i < j < |rows| ==> rows[i].id != rows[j].id)
    && (forall i, j :: 0 <= i < j < |rows| ==> rows[i].ethereumAddress != rows[j].ethereumAddress)
    && (forall i :: 0 <= i < |rows| ==> IsLowercase(rows[i].ethereumAddress))
  }

  /** An insert into a valid `users` table keeps it valid exactly when the new
      row has a fresh id, a fresh address and a lower-case address: the
      primary key, the `unique` constraint and the `isLowercase` validator. */
  lemma UsersOkInsert(rows: seq<UserRow>, u: UserRow)
    requires UsersOk(rows)
    ensures UsersOk(rows + [u]) <==>
      && IsLowercase(u.ethereumAddress)
      && (forall i :: 0 <= i < |rows| ==> rows[i].id != u.id)
      && (forall i :: 0 <= i < |rows| ==> rows[i].ethereumAddress != u.ethereumAddress)
  {
    var t := rows + [u];
    if UsersOk(t) {
      assert t[|rows|] == u;
      forall i | 0 <= i < |rows|
        ensures rows[i].id != u.id && rows[i].ethereumAddress != u.ethereumAddress
      {
        assert t[i] == rows[i];
      }
    }
  }

  /** Whether a table holds a row with primary key `id`. */
  predicate HasSecretId(rows: seq<SecretRow>, id: string) {
    exists i :: 0 <= i < |rows| && rows[i].id == id
  }

  predicate HasAuditId(rows: seq<AuditRow>, id: string) {
    exists i :: 0 <= i < |rows| && rows[i].id == id
  }
}
