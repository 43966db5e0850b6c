/** `AuditService`: `logAction` appends one row to the `audit_logs` table,
    `getUserAuditLogs` reads one owner's rows newest first, and `cleanupOldLogs`
    deletes the rows older than a retention horizon. The table is the `rows`
    field of an `AuditLog`; no other operation changes it. */
module AuditService {
  import opened Wrappers
  import opened Text
  import opened Errors
  import opened Models
  import opened Query

  const DefaultLimit: int := 50
  const DefaultOffset: int := 0
  const DefaultRetentionDays: int := 90
  /** Timestamps are milliseconds since the epoch. */
  const MsPerDay: int := 86400000

  /** A Node socket, as far as `remoteAddress` goes. */
  datatype Socket = Socket(remoteAddress: Option<string>)

  /** The parts of an Express request the audit code and the middleware read.
      `connection` and `socket` are `None` when the property is undefined;
      header names are lower case, as Node delivers them. */
  datatype RequestInfo = RequestInfo(
    ip: Option<string>,
    connection: Option<Socket>,
    socket: Option<Socket>,
    headers: map<string, string>)

  function Header(req: RequestInfo, name: string): Option<string> {
    if name in req.headers then Some(req.headers[name]) else None
  }

  function RemoteOf(s: Option<Socket>): Option<string> {
    if s.Some? then s.value.remoteAddress else None
  }

  /** Evaluating the `||` chain for the client address either throws (reading
      `remoteAddress` of an undefined object) or yields a value. */
  datatype IpLookup = Threw | Found(ip: Option<string>)

  /** `req.ip || req.connection.remoteAddress || req.socket.remoteAddress || req.headers['x-forwarded-for']`. */
  function ClientIp(req: RequestInfo): (r: IpLookup)
    ensures Truthy(req.ip) ==> r == Found(req.ip)
    // The connection's address wins over the socket's, and both over the header.
    ensures !Truthy(req.ip) && Truthy(RemoteOf(req.connection)) ==> r == Found(RemoteOf(req.connection))
    ensures (!Truthy(req.ip) && req.connection.Some? && !Truthy(RemoteOf(req.connection))
             && Truthy(RemoteOf(req.socket))) ==> r == Found(RemoteOf(req.socket))
    ensures r == Threw <==>
      !Truthy(req.ip) &&
      (req.connection.None? || (!Truthy(req.connection.value.remoteAddress) && req.socket.None?))
    ensures (r.Found? && !Truthy(req.ip) && !Truthy(RemoteOf(req.connection))
             && !Truthy(RemoteOf(req.socket))) ==> r.ip == Header(req, "x-forwarded-for")
    ensures r.Found? && Truthy(r.ip) ==>
      r.ip in {req.ip, RemoteOf(req.connection), RemoteOf(req.socket), Header(req, "x-forwarded-for")}
  {
    if Truthy(req.ip) then Found(req.ip)
    else if req.connection.None? then Threw
    else if Truthy(req.connection.value.remoteAddress) then Found(req.connection.value.remoteAddress)
    else if req.socket.None? then Threw
    else if Truthy(req.socket.value.remoteAddress) then Found(req.socket.value.remoteAddress)
    else Found(Header(req, "x-forwarded-for"))
  }

  /** `{ ...metadata, userAgent, ipAddress }` as stored in JSONB: the two keys
      always replace the caller's, and an `undefined` one disappears. */
  function AuditMetadata(metadata: Metadata, userAgent: Option<string>, ipAddress: Option<string>): (m: Metadata)
    ensures forall k :: k != "userAgent" && k != "ipAddress" ==>
      (k in m <==> k in metadata) && (k in metadata ==> m[k] == metadata[k])
    ensures "userAgent" in m <==> userAgent.Some?
    ensures userAgent.Some? ==> m["userAgent"] == MetaString(userAgent.value)
    ensures "ipAddress" in m <==> ipAddress.Some?
    ensures ipAddress.Some? ==> m["ipAddress"] == MetaString(ipAddress.value)
  {
    var base := metadata - {"userAgent", "ipAddress"};
    var withAgent := if userAgent.Some? then base["userAgent" := MetaString(userAgent.value)] else base;
    if ipAddress.Some? then withAgent["ipAddress" := MetaString(ipAddress.value)] else withAgent
  }

  /** What the caller of `logAction` gets: `null` after a failure it caught, or
      the promise of `AuditLog.create`, which resolves to the row or rejects. */
  datatype LogResult = Swallowed | Appended(row: AuditRow) | Rejected(error: ErrorValue)

  const InvalidActionError: ErrorValue :=
    ErrorValue("SequelizeValidationError", None, "Validation error: Validation isIn on action failed")
  const DuplicateIdError: ErrorValue :=
    ErrorValue("SequelizeUniqueConstraintError", None, "Validation error")

  /** The `where` object of `getUserAuditLogs`: owner and an optional inclusive range. */
  datatype AuditWhere = AuditWhere(userId: string, between: Option<(int, int)>)

  predicate MatchesAudit(row: AuditRow, where: AuditWhere) {
    && row.userId == where.userId
    && (where.between.Some? ==> where.between.value.0 <= row.createdAt <= where.between.value.1)
  }

  function AuditCreatedAt(r: AuditRow): int {
    r.createdAt
  }

  /** `AuditLog.findAndCountAll` ordered by createdAt descending. */
  function FindAndCountAllLogs(rows: seq<AuditRow>, where: AuditWhere, limit: int, offset: int)
    : (page: Page<AuditRow>)
    ensures page.count == |Filter(rows, r => MatchesAudit(r, where))|
    ensures forall k :: 0 <= k < |page.rows| ==> page.rows[k] in rows && MatchesAudit(page.rows[k], where)
    ensures SortedDesc(page.rows, AuditCreatedAt)
    ensures |page.rows| <= page.count
    ensures limit >= 0 ==> |page.rows| <= limit
    ensures offset >= page.count ==> page.rows == []
    ensures 0 <= offset && 0 <= limit && offset + limit <= page.count ==> |page.rows| == limit
    // The page is the `LIMIT`/`OFFSET` window of the matches put newest first.
    ensures exists ord :: (SortedDesc(ord, AuditCreatedAt)
      && multiset(ord) == multiset(Filter(rows, r => MatchesAudit(r, where)))
      && page.rows == Window(ord, limit, offset))
  {
    var matching := Filter(rows, r => MatchesAudit(r, where));
    PageOfSorted(matching, AuditCreatedAt, limit, offset);
    SortDescSorted(matching, AuditCreatedAt);
    Page(|matching|, Window(SortDesc(matching, AuditCreatedAt), limit, offset))
  }

  /** Options of `getUserAuditLogs`; dates are milliseconds, `None` when not given. */
  datatype AuditQuery = AuditQuery(limit: Option<int>, offset: Option<int>, startDate: Option<int>, endDate: Option<int>)

  /** The rows a cleanup keeps: those not strictly older than the cutoff. */
  predicate Retained(row: AuditRow, cutoff: int) {
    row.createdAt >= cutoff
  }

  predicate Expired(row: AuditRow, cutoff: int) {
    row.createdAt < cutoff
  }

  /** The rows `cleanupOldLogs` keeps, and those it destroys, as filters. */
  function KeptFrom(cutoff: int): AuditRow -> bool {
    r => Retained(r, cutoff)
  }

  function ExpiredBefore(cutoff: int): AuditRow -> bool {
    r => Expired(r, cutoff)
  }

  /** What is kept and what is removed add up to the whole table. */
  lemma {:induction false} RetainedPlusExpired(rows: seq<AuditRow>, cutoff: int)
    ensures |Filter(rows, KeptFrom(cutoff))| + |Filter(rows, ExpiredBefore(cutoff))| == |rows|
  {
    if rows != [] {
      RetainedPlusExpired(rows[1..], cutoff);
    }
  }

  /** The in-memory `audit_logs` table. */
  class AuditLog {
    var rows: seq<AuditRow>

    ghost predicate Valid()
      reads this
    {
      UniqueAuditIds(rows)
    }

    constructor ()
      ensures Valid() && rows == []
    {
      rows := [];
    }

    /** `logAction({ userId, action, resourceId, metadata, req })`. `resourceId`
        and `metadata` are `None` when omitted (they default to null and `{}`);
        `freshId` is the generated UUID and `now` the insertion time. */
    method LogAction(userId: string, action: string, resourceId: Option<string>, metadata: Option<Metadata>,
                     req: RequestInfo, freshId: string, now: int)
      returns (out: LogResult)
      requires Valid()
      modifies this
      ensures Valid()
      ensures ClientIp(req) == Threw ==> out == Swallowed
      ensures !out.Appended? ==> rows == old(rows)
      ensures out.Appended? <==>
        ClientIp(req).Found? && ParseAction(action).Some? && !HasAuditId(old(rows), freshId)
      ensures ClientIp(req).Found? && ParseAction(action).None? ==> out == Rejected(InvalidActionError)
      ensures ClientIp(req).Found? && ParseAction(action).Some? && HasAuditId(old(rows), freshId) ==>
        out == Rejected(DuplicateIdError)
      ensures out.Appended? ==>
        && rows == old(rows) + [out.row]
        && out.row.id == freshId
        && out.row.userId == userId
        && ActionName(out.row.action) == action
        && out.row.resourceId == resourceId
        && out.row.ipAddress == ClientIp(req).ip
        && out.row.metadata == AuditMetadata(metadata.GetOr(map[]), Header(req, "user-agent"), ClientIp(req).ip)
        && out.row.createdAt == now && out.row.updatedAt == now
    {
      var ip := ClientIp(req);
      if ip == Threw {
        return Swallowed;
      }
      var auditMetadata := AuditMetadata(metadata.GetOr(map[]), Header(req, "user-agent"), ip.ip);
      var parsed := ParseAction(action);
      if parsed.None? {
        return Rejected(InvalidActionError);
      }
      if HasAuditId(rows, freshId) {
        return Rejected(DuplicateIdError);
      }
      var row := AuditRow(freshId, userId, parsed.value, resourceId, auditMetadata, ip.ip, now, now);
      rows := rows + [row];
      out := Appended(row);
    }

    /** `getUserAuditLogs(userId, options)`: the date range applies only when
        both ends are given, and then includes both ends. */
    method GetUserAuditLogs(userId: string, options: AuditQuery) returns (page: Page<AuditRow>)
      ensures page == FindAndCountAllLogs(rows,
        AuditWhere(userId,
          if options.startDate.Some? && options.endDate.Some?
          then Some((options.startDate.value, options.endDate.value)) else None),
        options.limit.GetOr(DefaultLimit), options.offset.GetOr(DefaultOffset))
      ensures forall k :: 0 <= k < |page.rows| ==> page.rows[k] in rows && page.rows[k].userId == userId
      ensures options.startDate.Some? && options.endDate.Some? ==>
        forall k :: 0 <= k < |page.rows| ==>
          options.startDate.value <= page.rows[k].createdAt <= options.endDate.value
      ensures options.limit.None? ==> |page.rows| <= DefaultLimit
    {
      var limit := options.limit.GetOr(DefaultLimit);
      var offset := options.offset.GetOr(DefaultOffset);
      var where := AuditWhere(userId, None);
      if options.startDate.Some? && options.endDate.Some? {
        where := where.(between := Some((options.startDate.value, options.endDate.value)));
      }
      page := FindAndCountAllLogs(rows, where, limit, offset);
    }

    /** `cleanupOldLogs(retentionDays)`: destroy every row created strictly before
        `now` minus the retention period and return how many were destroyed. */
    method CleanupOldLogs(retentionDays: Option<int>, now: int) returns (deleted: nat)
      requires Valid()
      modifies this
      ensures Valid()
      ensures var cutoff := now - retentionDays.GetOr(DefaultRetentionDays) * MsPerDay;
        && rows == Filter(old(rows), KeptFrom(cutoff))
        && deleted == |Filter(old(rows), ExpiredBefore(cutoff))|
        && deleted == |old(rows)| - |rows|
    {
      var cutoff := now - retentionDays.GetOr(DefaultRetentionDays) * MsPerDay;
      var kept := Filter(rows, KeptFrom(cutoff));
      RetainedPlusExpired(rows, cutoff);
      FilterKeepsUnique(rows, KeptFrom(cutoff));
      deleted := |rows| - |kept|;
      rows := kept;
    }
  }

  /** Removing rows keeps primary keys unique. */
  lemma {:induction false} FilterKeepsUnique(rows: seq<AuditRow>, keep: AuditRow -> bool)
    requires UniqueAuditIds(rows)
    ensures UniqueAuditIds(Filter(rows, keep))
  {
    if rows != [] {
      FilterKeepsUnique(rows[1..], keep);
      var tail := Filter(rows[1..], keep);
      if keep(rows[0]) {
        var r := [rows[0]] + tail;
        forall i, j | 0 <= i < j < |r| ensures r[i].id != r[j].id {
          if i == 0 {
            assert r[j] == tail[j - 1] && tail[j - 1] in rows[1..];
            var k :| 0 <= k < |rows[1..]| && rows[1..][k] == r[j];
            assert rows[k + 1] == r[j];
          } else {
            assert r[i] == tail[i - 1] && r[j] == tail[j - 1];
          }
        }
      }
    }
  }
}
