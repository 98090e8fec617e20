/** The table app.user_sessions and the stored procedures that read and change it.

    Every procedure is given twice: as a function from the old rows to the new rows and the
    reply, which the proofs about runs use, and as a method of `UserSessions`, which changes
    the rows in place and is proved equal to that function. `now` is the start time of the
    calling transaction, because now() in PostgreSQL does not advance inside one. */
module SessionTable {
  import opened Wrappers

  type Uuid = nat      // a row id, read as a number
  type Digest = nat    // a sha256 digest, read as a number
  type Time = int      // microseconds, the resolution of timestamptz

  datatype Tokens = Tokens(access: string, refresh: string, expiresAt: Option<Time>)
  datatype Audit = Audit(userAgent: Option<string>, ip: Option<string>)

  datatype Row = Row(
    tokenHash: Digest, userId: Uuid, tenantId: Uuid, tokens: Tokens,
    absolute: Time, idle: Time, createdAt: Time, lastSeenAt: Time,
    revokedAt: Option<Time>, rotatedFrom: Option<Uuid>, audit: Audit)

  type Table = map<Uuid, Row>

  datatype DbCode =
    | SessionNotFound | SessionRevoked | SessionExpired
    | TenantNotFound | UserNotInTenant | OtherCode(code: string)

  /** What a procedure call gives its caller: the `data` of the envelope, the error code of the
      envelope, or the unique_violation that aborts the transaction. */
  datatype Outcome<+T> = Ok(value: T) | Error(code: DbCode) | UniqueViolation

  datatype Expiries = Expiries(absolute: Time, idle: Time)

  datatype Login = Login(
    tokenHash: Digest, userId: Uuid, tenantId: Uuid, tokens: Tokens,
    absoluteTtl: int, idleTtl: int, audit: Audit)

  datatype Rotation = Rotation(newHash: Digest, tokens: Tokens, idleTtl: int)

  // ---- Rows -----------------------------------------------------------------------------

  function Least(a: Time, b: Time): Time { if a <= b then a else b }

  predicate Expired(r: Row, now: Time) { r.absolute <= now || r.idle <= now }

  predicate Active(r: Row, now: Time) { r.revokedAt.None? && !Expired(r, now) }

  /** The checks get, touch and rotate make on a row they found, in their order. */
  function Rejection(r: Row, now: Time): Option<DbCode>
  {
    if r.revokedAt.Some? then Some(SessionRevoked)
    else if Expired(r, now) then Some(SessionExpired)
    else None
  }

  predicate HasHash(t: Table, id: Uuid, h: Digest) { id in t && t[id].tokenHash == h }

  ghost predicate HashInUse(t: Table, h: Digest) { exists id :: HasHash(t, id, h) }

  /** The row a token hash selects. */
  ghost function Find(t: Table, h: Digest): (r: Option<Uuid>)
    ensures r.Some? ==> HasHash(t, r.value, h)
    ensures r.None? ==> !HashInUse(t, h)
  {
    if HashInUse(t, h) then
      var id :| HasHash(t, id, h);
      Some(id)
    else None
  }

  // The three constraints of the table definition.
  ghost predicate UniqueHashes(t: Table) {
    forall a, b, h :: HasHash(t, a, h) && HasHash(t, b, h) ==> a == b
  }

  ghost predicate IdleWithinAbsolute(t: Table) { forall id :: id in t ==> t[id].idle <= t[id].absolute }

  /** Row `id` was rotated from row `p`. */
  predicate Link(t: Table, p: Uuid, id: Uuid) { id in t && t[id].rotatedFrom == Some(p) }

  ghost predicate LinksPresent(t: Table) { forall p, id :: Link(t, p, id) ==> p in t }

  ghost predicate Constraints(t: Table) { UniqueHashes(t) && IdleWithinAbsolute(t) && LinksPresent(t) }

  lemma FindUnique(t: Table, id: Uuid)
    requires UniqueHashes(t) && id in t
    ensures Find(t, t[id].tokenHash) == Some(id)
  {
    assert HasHash(t, id, t[id].tokenHash);
  }

  /** A change that keeps every remaining row's hash and unlinks only what it deletes keeps the
      constraints. */
  lemma KeepsConstraints(t: Table, u: Table)
    requires Constraints(t) && u.Keys <= t.Keys && IdleWithinAbsolute(u)
    requires forall id :: id in u ==> u[id].tokenHash == t[id].tokenHash
    requires forall id :: id in u ==>
               || u[id].rotatedFrom.None?
               || (u[id].rotatedFrom == t[id].rotatedFrom
                   && (t[id].rotatedFrom.Some? && t[id].rotatedFrom.value in t ==> t[id].rotatedFrom.value in u))
    ensures Constraints(u)
  {
    assert forall id, h :: HasHash(u, id, h) ==> HasHash(t, id, h);
    assert forall p, id :: Link(u, p, id) ==> Link(t, p, id);
  }

  lemma InsertKeepsConstraints(t: Table, id: Uuid, r: Row)
    requires Constraints(t) && id !in t && !HashInUse(t, r.tokenHash) && r.idle <= r.absolute
    requires r.rotatedFrom.Some? ==> r.rotatedFrom.value in t
    ensures Constraints(t[id := r])
  {
    var u := t[id := r];
    assert forall i, h :: HasHash(u, i, h) ==> HasHash(t, i, h) || (i == id && h == r.tokenHash);
    assert forall p: Uuid, i :: Link(u, p, i) ==> Link(t, p, i) || (i == id && r.rotatedFrom == Some(p));
  }

  // ---- The procedures as functions --------------------------------------------------------

  function LoginRow(now: Time, l: Login): Row {
    var absolute := now + l.absoluteTtl;
    Row(l.tokenHash, l.userId, l.tenantId, l.tokens, absolute, Least(now + l.idleTtl, absolute),
        now, now, None, None, l.audit)
  }

  ghost function Create(t: Table, id: Uuid, now: Time, l: Login, tenantActive: bool, member: bool)
    : (Table, Outcome<Expiries>)
  {
    if !tenantActive then (t, Error(TenantNotFound))
    else if !member then (t, Error(UserNotInTenant))
    else if HashInUse(t, l.tokenHash) then (t, UniqueViolation)
    else var r := LoginRow(now, l); (t[id := r], Ok(Expiries(r.absolute, r.idle)))
  }

  ghost function Get(t: Table, now: Time, h: Digest): Outcome<Row>
  {
    match Find(t, h)
    case None => Error(SessionNotFound)
    case Some(id) =>
      var rejection := Rejection(t[id], now);
      if rejection.Some? then Error(rejection.value) else Ok(t[id])
  }

  /** The address of a user in app.users, which may be NULL. */
  function EmailOf(emails: map<Uuid, string>, user: Uuid): Option<string> {
    if user in emails then Some(emails[user]) else None
  }

  datatype Reading = Reading(row: Row, email: Option<string>)

  /** What a read answers: the row joined with the address of its user. */
  ghost function GetJoined(t: Table, emails: map<Uuid, string>, now: Time, h: Digest): Outcome<Reading>
  {
    match Get(t, now, h)
    case Ok(r) => Ok(Reading(r, EmailOf(emails, r.userId)))
    case Error(code) => Error(code)
    case UniqueViolation => UniqueViolation
  }

  /** The UPDATE of touch. It selects by id alone, so it also reaches a row revoked since the
      SELECT, and reaches no row when that row has been purged. */
  function Slide(t: Table, id: Uuid, now: Time, idleTtl: int): (Table, Option<Time>)
  {
    if id !in t then (t, None)
    else
      var idle := Least(now + idleTtl, t[id].absolute);
      (t[id := t[id].(idle := idle, lastSeenAt := now)], Some(idle))
  }

  ghost function Touch(t: Table, now: Time, h: Digest, idleTtl: int): (Table, Outcome<Option<Time>>)
  {
    match Find(t, h)
    case None => (t, Error(SessionNotFound))
    case Some(id) =>
      var rejection := Rejection(t[id], now);
      if rejection.Some? then (t, Error(rejection.value))
      else var slid := Slide(t, id, now, idleTtl); (slid.0, Ok(slid.1))
  }

  function SuccessorRow(prior: Row, priorId: Uuid, now: Time, n: Rotation): Row {
    Row(n.newHash, prior.userId, prior.tenantId, n.tokens, prior.absolute, Least(now + n.idleTtl, prior.absolute),
        now, now, None, Some(priorId), prior.audit)
  }

  function MarkRevoked(t: Table, ids: set<Uuid>, now: Time): Table {
    map id | id in t :: if id in ids then t[id].(revokedAt := Some(now)) else t[id]
  }

  /** What rotate does once it holds the lock on row `id` and has read it as `prior`. */
  ghost function RotateLocked(t: Table, id: Uuid, prior: Row, now: Time, newId: Uuid, n: Rotation)
    : (Table, Outcome<Expiries>)
  {
    var rejection := Rejection(prior, now);
    if rejection.Some? then (t, Error(rejection.value))
    else if HashInUse(t, n.newHash) then (t, UniqueViolation)
    else
      var r := SuccessorRow(prior, id, now, n);
      (MarkRevoked(t[newId := r], {id}, now), Ok(Expiries(r.absolute, r.idle)))
  }

  ghost function Rotate(t: Table, now: Time, h: Digest, newId: Uuid, n: Rotation): (Table, Outcome<Expiries>)
  {
    match Find(t, h)
    case None => (t, Error(SessionNotFound))
    case Some(id) => RotateLocked(t, id, t[id], now, newId, n)
  }

  ghost function Revoke(t: Table, now: Time, h: Digest): Table
  {
    match Find(t, h)
    case None => t
    case Some(id) => if t[id].revokedAt.None? then MarkRevoked(t, {id}, now) else t
  }

  function ActiveOf(t: Table, now: Time, user: Uuid, tenant: Uuid): set<Uuid> {
    set id | id in t && t[id].userId == user && t[id].tenantId == tenant && Active(t[id], now)
  }

  predicate Purgeable(r: Row, now: Time, grace: int) {
    r.absolute < now - grace || (r.revokedAt.Some? && r.revokedAt.value < now - grace)
  }

  function PurgeableIn(t: Table, now: Time, grace: int): set<Uuid> {
    set id | id in t && Purgeable(t[id], now, grace)
  }

  /** DELETE of `ids` with ON DELETE SET NULL on rotated_from. */
  function Delete(t: Table, ids: set<Uuid>): Table {
    map id | id in t && id !in ids ::
      if t[id].rotatedFrom.Some? && t[id].rotatedFrom.value in ids then t[id].(rotatedFrom := None) else t[id]
  }

  // ---- The procedures as methods on the table ------------------------------------------------

  class UserSessions {
    var rows: Table

    ghost predicate Valid()
      reads this
    {
      Constraints(rows)
    }

    constructor ()
      ensures Valid() && rows == map[]
    {
      rows := map[];
    }

    method SelectByHash(h: Digest) returns (r: Option<Uuid>)
      requires Valid()
      ensures r == Find(rows, h)
    {
      if exists id :: id in rows && rows[id].tokenHash == h {
        var id :| id in rows && rows[id].tokenHash == h;
        assert HasHash(rows, id, h);
        FindUnique(rows, id);
        return Some(id);
      }
      return None;
    }

    method CreateUserSession(id: Uuid, now: Time, l: Login, tenantActive: bool, member: bool)
      returns (r: Outcome<Expiries>)
      requires Valid() && id !in rows
      modifies this
      ensures Valid()
      ensures (rows, r) == Create(old(rows), id, now, l, tenantActive, member)
    {
      if !tenantActive {
        return Error(TenantNotFound);
      }
      if !member {
        return Error(UserNotInTenant);
      }
      var clash := SelectByHash(l.tokenHash);
      if clash.Some? {
        return UniqueViolation;
      }
      var row := LoginRow(now, l);
      InsertKeepsConstraints(rows, id, row);
      rows := rows[id := row];
      r := Ok(Expiries(row.absolute, row.idle));
    }

    method GetUserSession(emails: map<Uuid, string>, now: Time, h: Digest) returns (r: Outcome<Reading>)
      requires Valid()
      ensures r == GetJoined(rows, emails, now, h)
    {
      var read := CheckedRow(now, h);
      match read
      case Ok(row) => r := Ok(Reading(row, if row.userId in emails then Some(emails[row.userId]) else None));
      case Error(code) => r := Error(code);
      case UniqueViolation => r := UniqueViolation;
    }

    /** The row of the hash, after the three checks that get, touch and rotate begin with. */
    method CheckedRow(now: Time, h: Digest) returns (r: Outcome<Row>)
      requires Valid()
      ensures r == Get(rows, now, h)
    {
      var found := SelectByHash(h);
      match found
      case None => r := Error(SessionNotFound);
      case Some(id) =>
        var row := rows[id];
        if row.revokedAt.Some? {
          return Error(SessionRevoked);
        }
        if row.absolute <= now || row.idle <= now {
          return Error(SessionExpired);
        }
        r := Ok(row);
    }

    method TouchUserSession(now: Time, h: Digest, idleTtl: int) returns (r: Outcome<Option<Time>>)
      requires Valid()
      modifies this
      ensures Valid()
      ensures (rows, r) == Touch(old(rows), now, h, idleTtl)
      ensures r.Ok? ==> r.value.Some?
    {
      var read := CheckedRow(now, h);
      if read.Error? {
        return Error(read.code);
      }
      var found := SelectByHash(h);
      var id := found.value;
      var idle := Least(now + idleTtl, rows[id].absolute);
      rows := rows[id := rows[id].(idle := idle, lastSeenAt := now)];
      KeepsConstraints(old(rows), rows);
      r := Ok(Some(idle));
    }

    method RotateUserSession(now: Time, h: Digest, newId: Uuid, n: Rotation) returns (r: Outcome<Expiries>)
      requires Valid() && newId !in rows
      modifies this
      ensures Valid()
      ensures (rows, r) == Rotate(old(rows), now, h, newId, n)
    {
      var read := CheckedRow(now, h);
      if read.Error? {
        return Error(read.code);
      }
      var found := SelectByHash(h);
      var id, prior := found.value, read.value;
      var clash := SelectByHash(n.newHash);
      if clash.Some? {
        return UniqueViolation;
      }
      var row := SuccessorRow(prior, id, now, n);
      InsertKeepsConstraints(rows, newId, row);
      rows := rows[newId := row];
      ghost var inserted := rows;
      rows := rows[id := rows[id].(revokedAt := Some(now))];
      assert rows == MarkRevoked(old(rows)[newId := row], {id}, now);
      KeepsConstraints(inserted, rows);
      r := Ok(Expiries(row.absolute, row.idle));
    }

    method RevokeUserSession(now: Time, h: Digest)
      requires Valid()
      modifies this
      ensures Valid()
      ensures rows == Revoke(old(rows), now, h)
    {
      var found := SelectByHash(h);
      if found.Some? && rows[found.value].revokedAt.None? {
        rows := rows[found.value := rows[found.value].(revokedAt := Some(now))];
        assert rows == MarkRevoked(old(rows), {found.value}, now);
        KeepsConstraints(old(rows), rows);
      }
    }

    method RevokeAllUserSessions(now: Time, user: Uuid, tenant: Uuid) returns (count: nat)
      requires Valid()
      modifies this
      ensures Valid()
      ensures rows == MarkRevoked(old(rows), ActiveOf(old(rows), now, user, tenant), now)
      ensures count == |ActiveOf(old(rows), now, user, tenant)|
    {
      var matching := set id | id in rows && rows[id].userId == user && rows[id].tenantId == tenant
                            && rows[id].revokedAt.None? && rows[id].absolute > now && rows[id].idle > now;
      assert matching == ActiveOf(rows, now, user, tenant);
      rows := MarkRevoked(rows, matching, now);
      KeepsConstraints(old(rows), rows);
      count := |matching|;
    }

    method DeleteExpiredSessions(now: Time, grace: int) returns (count: nat)
      requires Valid()
      modifies this
      ensures Valid()
      ensures rows == Delete(old(rows), PurgeableIn(old(rows), now, grace))
      ensures count == |old(rows)| - |rows|
    {
      var victims := set id | id in rows && (rows[id].absolute < now - grace
                           || (rows[id].revokedAt.Some? && rows[id].revokedAt.value < now - grace));
      assert victims == PurgeableIn(rows, now, grace);
      var kept := Delete(rows, victims);
      DeleteCounts(rows, victims);
      rows := kept;
      KeepsConstraints(old(rows), rows);
      count := |victims|;
    }
  }

  lemma DeleteCounts(t: Table, ids: set<Uuid>)
    requires ids <= t.Keys
    ensures |Delete(t, ids)| == |t| - |ids|
  {
    assert Delete(t, ids).Keys == t.Keys - ids;
    assert |Delete(t, ids).Keys| == |t.Keys| - |ids|;
  }

  // ---- What a call answers, in the columns -----------------------------------------------------------

  /** Which of its three refusals a login gets, and that a refused login changes nothing. */
  lemma CreateAnswers(t: Table, id: Uuid, now: Time, l: Login, tenantActive: bool, member: bool)
    ensures var r := Create(t, id, now, l, tenantActive, member);
            && (r.1 == Error(TenantNotFound) <==> !tenantActive)
            && (r.1 == Error(UserNotInTenant) <==> tenantActive && !member)
            && (r.1 == UniqueViolation <==> tenantActive && member && exists i :: HasHash(t, i, l.tokenHash))
            && (r.1.Ok? <==> tenantActive && member && forall i :: !HasHash(t, i, l.tokenHash))
            && (!r.1.Ok? ==> r.0 == t)
  {
  }

  /** A read carries the address of the session's own user, or none where that is NULL. */
  lemma ReadJoinsEmail(t: Table, emails: map<Uuid, string>, now: Time, h: Digest, id: Uuid)
    requires UniqueHashes(t) && HasHash(t, id, h) && t[id].revokedAt == None && now < t[id].absolute && now < t[id].idle
    ensures t[id].userId in emails ==> GetJoined(t, emails, now, h) == Ok(Reading(t[id], Some(emails[t[id].userId])))
    ensures t[id].userId !in emails ==> GetJoined(t, emails, now, h) == Ok(Reading(t[id], None))
  {
    FindUnique(t, id);
  }

  /** A bulk revocation changes `revoked_at` of the un-revoked, unexpired rows of that user in that tenant,
      and nothing else. */
  lemma RevokeAllInColumns(t: Table, now: Time, user: Uuid, tenant: Uuid, id: Uuid)
    requires id in t
    ensures var u := MarkRevoked(t, ActiveOf(t, now, user, tenant), now);
            id in u && u[id] ==
              if t[id].userId == user && t[id].tenantId == tenant && t[id].revokedAt == None
                 && now < t[id].absolute && now < t[id].idle
              then t[id].(revokedAt := Some(now)) else t[id]
  {
  }

  /** A purge removes the rows whose absolute expiry or revocation lies before the grace window, clears the
      links of the others into those, and changes nothing else. */
  lemma PurgeInColumns(t: Table, now: Time, grace: int, id: Uuid)
    requires id in t
    ensures var gone := PurgeableIn(t, now, grace);
            && (id in gone <==> t[id].absolute < now - grace
                                || (t[id].revokedAt.Some? && t[id].revokedAt.value < now - grace))
            && (id in Delete(t, gone) <==> id !in gone)
            && (id in Delete(t, gone) ==>
                 Delete(t, gone)[id] ==
                   if t[id].rotatedFrom.Some? && t[id].rotatedFrom.value in gone then t[id].(rotatedFrom := None)
                   else t[id])
  {
  }

  // ---- What one call means for the next -----------------------------------------------------------

  /** A read resolves a token to a row exactly when the row carries its hash and is active, and names
      the reason otherwise. */
  lemma GetAnswers(t: Table, now: Time, h: Digest, id: Uuid)
    requires UniqueHashes(t)
    ensures HasHash(t, id, h) ==>
              && (Get(t, now, h) == Ok(t[id]) <==> Active(t[id], now))
              && (Get(t, now, h) == Error(SessionRevoked) <==> t[id].revokedAt.Some?)
              && (Get(t, now, h) == Error(SessionExpired) <==> t[id].revokedAt.None? && Expired(t[id], now))
    ensures Get(t, now, h) == Error(SessionNotFound) <==> !HashInUse(t, h)
  {
    if HasHash(t, id, h) {
      FindUnique(t, id);
    }
  }

  /** A login resolves as soon as it is made exactly when both its lifetimes are positive. */
  lemma CreatedSessionResolvesIff(t: Table, id: Uuid, now: Time, l: Login, tenantActive: bool, member: bool)
    requires Constraints(t) && id !in t && Create(t, id, now, l, tenantActive, member).1.Ok?
    ensures var r := Create(t, id, now, l, tenantActive, member);
            && (Get(r.0, now, l.tokenHash) == Ok(r.0[id]) <==> l.absoluteTtl > 0 && l.idleTtl > 0)
            && r.0[id].userId == l.userId && r.0[id].tenantId == l.tenantId
            && r.0[id].tokens == l.tokens && r.0[id].audit == l.audit && r.0[id].rotatedFrom.None?
            && r.1.value == Expiries(r.0[id].absolute, r.0[id].idle)
  {
    var u := Create(t, id, now, l, tenantActive, member).0;
    InsertKeepsConstraints(t, id, u[id]);
    GetAnswers(u, now, l.tokenHash, id);
  }

  /** A rotation moves a login from the row of the old token to that of the new one: the old token is
      refused from then on, the new one resolves exactly when it was given any time at all, the user,
      tenant and absolute expiry are those of the old row, and no other row changes. */
  lemma RotationMovesSession(t: Table, id: Uuid, now: Time, h: Digest, newId: Uuid, n: Rotation)
    requires Constraints(t) && HasHash(t, id, h) && newId !in t && Rotate(t, now, h, newId, n).1.Ok?
    ensures var u, e := Rotate(t, now, h, newId, n).0, Rotate(t, now, h, newId, n).1.value;
            && Active(t[id], now) && u.Keys == t.Keys + {newId}
            && (forall i :: i in t && i != id ==> u[i] == t[i])
            && u[id] == t[id].(revokedAt := Some(now)) && Get(u, now, h) == Error(SessionRevoked)
            && (Get(u, now, n.newHash) == Ok(u[newId]) <==> n.idleTtl > 0)
            && u[newId].userId == t[id].userId && u[newId].tenantId == t[id].tenantId
            && u[newId].rotatedFrom == Some(id)
            && u[newId].tokens == n.tokens && u[newId].audit == t[id].audit
            && e == Expiries(t[id].absolute, u[newId].idle) && u[newId].absolute == t[id].absolute
  {
    FindUnique(t, id);
    var mid, u := t[newId := SuccessorRow(t[id], id, now, n)], Rotate(t, now, h, newId, n).0;
    InsertKeepsConstraints(t, newId, mid[newId]);
    KeepsConstraints(mid, u);
    assert HasHash(u, id, h) && HasHash(u, newId, n.newHash);
    GetAnswers(u, now, h, id);
    GetAnswers(u, now, n.newHash, newId);
  }

  /** A touch that succeeds moves the idle expiry of its row, to the very time it returns, and neither
      its absolute expiry nor any other row; one that fails changes nothing. */
  lemma TouchMovesIdleOnly(t: Table, id: Uuid, now: Time, h: Digest, idleTtl: int)
    requires UniqueHashes(t) && HasHash(t, id, h)
    ensures var r := Touch(t, now, h, idleTtl);
            && r.0.Keys == t.Keys && (forall i :: i in t && i != id ==> r.0[i] == t[i])
            && (r.1.Ok? <==> Active(t[id], now))
            && (r.1.Ok? ==> r.1.value == Some(r.0[id].idle) && r.0[id].idle == Least(now + idleTtl, t[id].absolute)
                            && r.0[id].lastSeenAt == now
                            && t[id] == r.0[id].(idle := t[id].idle, lastSeenAt := t[id].lastSeenAt))
            && (!r.1.Ok? ==> r.0 == t)
  {
    FindUnique(t, id);
  }

  /** After a revocation the token is refused, whatever row it had; revoking it again, then or later,
      changes nothing. */
  lemma RevokeIsFinalAndIdempotent(t: Table, now: Time, later: Time, h: Digest)
    requires Constraints(t)
    ensures var u := Revoke(t, now, h);
            && u.Keys == t.Keys && Revoke(u, later, h) == u
            && Get(u, later, h) == Error(if HashInUse(t, h) then SessionRevoked else SessionNotFound)
  {
    var u, found := Revoke(t, now, h), Find(t, h);
    KeepsConstraints(t, u);
    assert forall i :: HasHash(u, i, h) <==> HasHash(t, i, h);
    if found.Some? {
      FindUnique(u, found.value);
    }
  }

  // ---- What one call of the bulk procedures means ----------------------------------------------

  /** Log out everywhere: afterwards nothing of that user and tenant is active, every other row is
      as before, and calling it again, then or later, revokes nothing. */
  lemma RevokeAllLeavesNothingActive(t: Table, now: Time, later: Time, user: Uuid, tenant: Uuid)
    requires now <= later
    ensures var u := MarkRevoked(t, ActiveOf(t, now, user, tenant), now);
            && u.Keys == t.Keys
            && ActiveOf(u, later, user, tenant) == {}
            && (forall id :: id in t && id !in ActiveOf(t, now, user, tenant) ==> u[id] == t[id])
            && MarkRevoked(u, ActiveOf(u, later, user, tenant), later) == u
  {
    var gone := ActiveOf(t, now, user, tenant);
    var u := MarkRevoked(t, gone, now);
    forall id | id in u
      ensures id !in ActiveOf(u, later, user, tenant)
    {
      if id !in gone && t[id].userId == user && t[id].tenantId == tenant && t[id].revokedAt.None? {
        assert Expired(t[id], now);
      }
    }
    assert ActiveOf(u, later, user, tenant) == {};
  }

  /** The purge never removes a session active at its own start time, whatever the table, exactly
      when the grace window is at least -1 microsecond. Below that a row can be past
      `now - grace` and still be ahead of `now`. */
  lemma PurgeSparesActiveIff(now: Time, grace: int)
    ensures (forall r: Row :: Purgeable(r, now, grace) ==> !Active(r, now)) <==> -1 <= grace
  {
    if grace < -1 {
      var r := Row(0, 0, 0, Tokens("", "", None), now + 1, now + 1, now, now, None, None, Audit(None, None));
      assert Purgeable(r, now, grace) && Active(r, now);
    }
  }
}
