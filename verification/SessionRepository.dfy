/** The session repository port and its two implementations.

    `AdapterCall` is AsyncpgSessionRepository over the stored procedures: it hashes tokens,
    encrypts and decrypts the provider tokens, and turns error codes into exceptions.
    `FakeSessionRepository` keeps sessions in a dictionary of mutable records; `FakeCall` is what
    its methods are proved to do. The theorems say exactly when the two give the same answers. */
module SessionRepository {
  import opened Wrappers
  import opened SessionTable

  type Token = string

  const SECOND: int := 1_000_000

  datatype Exn =
    | InvalidSessionError(code: DbCode)
    | SessionExpiredError
    | IdentityMappingError(code: DbCode)
    | ConflictError
    | DatabaseResultError(code: DbCode)
    | TypeError    // of Python, mapped by nothing: parsing a null expiry

  function RaiseForDbCode(code: DbCode): Exn {
    match code
    case SessionNotFound => InvalidSessionError(code)
    case SessionRevoked => InvalidSessionError(code)
    case SessionExpired => SessionExpiredError
    case TenantNotFound => IdentityMappingError(code)
    case UserNotInTenant => IdentityMappingError(code)
    case OtherCode(_) => DatabaseResultError(code)
  }

  datatype Session = Session(
    userId: Uuid, tenantId: Uuid, email: Option<string>,
    access: string, refresh: string, gotrueExpiresAt: Option<Time>, expiries: Expiries)

  datatype Answer =
    | Created(expiries: Expiries)
    | Found(session: Session)
    | IdleUntil(idle: Time)
    | Count(count: nat)
    | NoValue
    | Raised(exn: Exn)

  datatype Call =
    | CreateCall(token: Token, userId: Uuid, tenantId: Uuid, access: string, refresh: string,
                 gotrueExpiresAt: Option<Time>, absoluteTtlSeconds: int, idleTtlSeconds: int, audit: Audit)
    | GetCall(token: Token)
    | TouchCall(token: Token, idleTtlSeconds: int)
    | RotateCall(token: Token, newToken: Token, access: string, refresh: string,
                 gotrueExpiresAt: Option<Time>, idleTtlSeconds: int)
    | RevokeCall(token: Token)
    | RevokeAllCall(userId: Uuid, tenantId: Uuid)

  // ---- The adapter over the stored procedures ---------------------------------------------------

  /** The library functions the adapter calls. Encryption draws a nonce. */
  datatype Crypto = Crypto(hash: Token -> Digest, encrypt: (string, nat) -> string, decrypt: string -> string)

  ghost predicate RoundTrips(k: Crypto) { forall s, n :: k.decrypt(k.encrypt(s, n)) == s }

  /** What the surroundings of one call decide: the id of a row it inserts, the nonces, and whether
      the tenant and the membership are active. */
  datatype Env = Env(newId: Uuid, accessNonce: nat, refreshNonce: nat, tenantActive: bool, member: bool)

  function ExpiriesAnswer(o: Outcome<Expiries>): Answer {
    match o
    case Ok(e) => Created(e)
    case Error(code) => Raised(RaiseForDbCode(code))
    case UniqueViolation => Raised(ConflictError)
  }

  function Sealed(k: Crypto, access: string, refresh: string, expiresAt: Option<Time>, env: Env): Tokens {
    Tokens(k.encrypt(access, env.accessNonce), k.encrypt(refresh, env.refreshNonce), expiresAt)
  }

  ghost function AdapterCall(k: Crypto, emails: map<Uuid, string>, t: Table, c: Call, now: Time, env: Env)
    : (Table, Answer)
  {
    match c
    case CreateCall(token, user, tenant, access, refresh, exp, absoluteTtl, idleTtl, audit) =>
      var l := Login(k.hash(token), user, tenant, Sealed(k, access, refresh, exp, env),
                     absoluteTtl * SECOND, idleTtl * SECOND, audit);
      var r := Create(t, env.newId, now, l, env.tenantActive, env.member);
      (r.0, ExpiriesAnswer(r.1))
    case GetCall(token) =>
      (match GetJoined(t, emails, now, k.hash(token))
       case Ok(Reading(r, email)) =>
         (t, Found(Session(r.userId, r.tenantId, email, k.decrypt(r.tokens.access), k.decrypt(r.tokens.refresh),
                           r.tokens.expiresAt, Expiries(r.absolute, r.idle))))
       case Error(code) => (t, Raised(RaiseForDbCode(code)))
       case UniqueViolation => (t, Raised(ConflictError)))
    case TouchCall(token, idleTtl) =>
      var r := Touch(t, now, k.hash(token), idleTtl * SECOND);
      (match r.1
       case Ok(Some(idle)) => (r.0, IdleUntil(idle))
       case Ok(None) => (r.0, Raised(TypeError))
       case Error(code) => (r.0, Raised(RaiseForDbCode(code)))
       case UniqueViolation => (r.0, Raised(ConflictError)))
    case RotateCall(token, newToken, access, refresh, exp, idleTtl) =>
      var n := Rotation(k.hash(newToken), Sealed(k, access, refresh, exp, env), idleTtl * SECOND);
      var r := Rotate(t, now, k.hash(token), env.newId, n);
      (r.0, ExpiriesAnswer(r.1))
    case RevokeCall(token) => (Revoke(t, now, k.hash(token)), NoValue)
    case RevokeAllCall(user, tenant) =>
      var gone := ActiveOf(t, now, user, tenant);
      (MarkRevoked(t, gone, now), Count(|gone|))
  }

  /** What a login answers, in microseconds from the start of the call: the two lifetimes are given in
      seconds. What it raises: a mapping error for a tenant or a membership that is not active, a conflict
      for a token in use. */
  lemma LoginAnswers(k: Crypto, emails: map<Uuid, string>, t: Table, c: Call, now: Time, env: Env)
    requires c.CreateCall?
    ensures var (u, a) := AdapterCall(k, emails, t, c, now, env);
            && (!env.tenantActive ==> a == Raised(IdentityMappingError(TenantNotFound)))
            && (env.tenantActive && !env.member ==> a == Raised(IdentityMappingError(UserNotInTenant)))
            && (env.tenantActive && env.member && (exists id :: HasHash(t, id, k.hash(c.token))) ==>
                 a == Raised(ConflictError))
            && (a.Created? <==> env.tenantActive && env.member && forall id :: !HasHash(t, id, k.hash(c.token)))
            && (a.Created? ==>
                 && a.expiries.absolute == now + 1_000_000 * c.absoluteTtlSeconds
                 && a.expiries.idle <= a.expiries.absolute && a.expiries.idle <= now + 1_000_000 * c.idleTtlSeconds
                 && (a.expiries.idle == a.expiries.absolute || a.expiries.idle == now + 1_000_000 * c.idleTtlSeconds))
  {
  }

  /** What a read, a touch or a rotation of the token raises, by the state of its row. */
  lemma RefusalRaises(k: Crypto, emails: map<Uuid, string>, t: Table, c: Call, now: Time, env: Env, id: Uuid)
    requires c.GetCall? || c.TouchCall? || c.RotateCall?
    requires UniqueHashes(t)
    ensures var a := AdapterCall(k, emails, t, c, now, env).1;
            && (!HashInUse(t, k.hash(c.token)) ==> a == Raised(InvalidSessionError(SessionNotFound)))
            && (HasHash(t, id, k.hash(c.token)) ==>
                 && (t[id].revokedAt != None ==> a == Raised(InvalidSessionError(SessionRevoked)))
                 && (t[id].revokedAt == None && (t[id].absolute <= now || t[id].idle <= now) ==>
                      a == Raised(SessionExpiredError)))
  {
    if HasHash(t, id, k.hash(c.token)) {
      FindUnique(t, id);
    }
  }

  // ---- The in-memory repository -----------------------------------------------------------------

  /** The value of one stored session. */
  datatype Stored = Stored(
    userId: Uuid, tenantId: Uuid, access: string, refresh: string, gotrueExpiresAt: Option<Time>,
    absolute: Time, idle: Time, revokedAt: Option<Time>)

  type View = map<Token, Stored>

  /** The condition under which revoke_all revokes a stored session. */
  predicate ActiveFor(s: Stored, now: Time, user: Uuid, tenant: Uuid) {
    s.userId == user && s.tenantId == tenant && s.revokedAt.None? && s.absolute > now && s.idle > now
  }

  function FakeRejection(v: View, token: Token, now: Time): Option<Exn>
  {
    if token !in v then Some(InvalidSessionError(SessionNotFound))
    else if v[token].revokedAt.Some? then Some(InvalidSessionError(SessionRevoked))
    else if v[token].absolute <= now || v[token].idle <= now then Some(SessionExpiredError)
    else None
  }

  function ActiveTokens(v: View, now: Time, user: Uuid, tenant: Uuid): set<Token> {
    set token | token in v && ActiveFor(v[token], now, user, tenant)
  }

  function RevokeTokens(v: View, tokens: set<Token>, now: Time): View {
    map token | token in v :: if token in tokens then v[token].(revokedAt := Some(now)) else v[token]
  }

  /** What the fake does. `first` and `second` are its readings of the clock, in order. */
  function FakeCall(emails: map<Uuid, string>, v: View, c: Call, first: Time, second: Time): (View, Answer)
  {
    match c
    case CreateCall(token, user, tenant, access, refresh, exp, absoluteTtl, idleTtl, _) =>
      var absolute := first + absoluteTtl * SECOND;
      var s := Stored(user, tenant, access, refresh, exp, absolute, Least(first + idleTtl * SECOND, absolute), None);
      (v[token := s], Created(Expiries(s.absolute, s.idle)))
    case GetCall(token) =>
      var rejection := FakeRejection(v, token, first);
      if rejection.Some? then (v, Raised(rejection.value))
      else
        var s := v[token];
        (v, Found(Session(s.userId, s.tenantId, EmailOf(emails, s.userId), s.access, s.refresh, s.gotrueExpiresAt,
                          Expiries(s.absolute, s.idle))))
    case TouchCall(token, idleTtl) =>
      var rejection := FakeRejection(v, token, first);
      if rejection.Some? then (v, Raised(rejection.value))
      else
        var idle := Least(second + idleTtl * SECOND, v[token].absolute);
        (v[token := v[token].(idle := idle)], IdleUntil(idle))
    case RotateCall(token, newToken, access, refresh, exp, idleTtl) =>
      var rejection := FakeRejection(v, token, first);
      if rejection.Some? then (v, Raised(rejection.value))
      else
        var o := v[token];
        var s := Stored(o.userId, o.tenantId, access, refresh, exp, o.absolute,
                        Least(second + idleTtl * SECOND, o.absolute), None);
        (v[token := o.(revokedAt := Some(second))][newToken := s], Created(Expiries(s.absolute, s.idle)))
    case RevokeCall(token) =>
      (if token in v && v[token].revokedAt.None? then v[token := v[token].(revokedAt := Some(first))] else v, NoValue)
    case RevokeAllCall(user, tenant) =>
      var gone := ActiveTokens(v, first, user, tenant);
      (RevokeTokens(v, gone, first), Count(|gone|))
  }

  /** Where the two clock readings of a touch and a rotation go: the checks use the first, the new idle
      expiry and the revocation the second. */
  lemma FakeReadsClockTwice(emails: map<Uuid, string>, v: View, token: Token, next: Token, access: string,
                            refresh: string, expiresAt: Option<Time>, ttl: int, first: Time, second: Time)
    requires token in v && v[token].revokedAt == None && first < v[token].absolute && first < v[token].idle
    requires next != token
    ensures var (u, a) := FakeCall(emails, v, TouchCall(token, ttl), first, second);
            a == IdleUntil(u[token].idle) && u[token].idle == Least(second + 1_000_000 * ttl, v[token].absolute)
    ensures var (u, a) := FakeCall(emails, v, RotateCall(token, next, access, refresh, expiresAt, ttl), first, second);
            && a == Created(Expiries(v[token].absolute, u[next].idle)) && u[token].revokedAt == Some(second)
            && u[next].idle == Least(second + 1_000_000 * ttl, v[token].absolute)
            && u[next].absolute == v[token].absolute
  {
  }

  lemma RevokeOneMore(v: View, done: set<Token>, token: Token, now: Time)
    requires token in v && token !in done
    ensures RevokeTokens(v, done, now)[token] == v[token]
    ensures RevokeTokens(v, done + {token}, now)
            == RevokeTokens(v, done, now)[token := v[token].(revokedAt := Some(now))]
  {
  }

  class StoredSession {
    const userId: Uuid
    const tenantId: Uuid
    const access: string
    const refresh: string
    const gotrueExpiresAt: Option<Time>
    const absolute: Time
    var idle: Time
    var revokedAt: Option<Time>

    constructor (s: Stored)
      ensures Value() == s
    {
      userId, tenantId, access, refresh := s.userId, s.tenantId, s.access, s.refresh;
      gotrueExpiresAt, absolute, idle, revokedAt := s.gotrueExpiresAt, s.absolute, s.idle, s.revokedAt;
    }

    function Value(): Stored
      reads this
    {
      Stored(userId, tenantId, access, refresh, gotrueExpiresAt, absolute, idle, revokedAt)
    }
  }

  class FakeSessionRepository {
    var sessions: map<Token, StoredSession>
    var emails: map<Uuid, string>

    ghost var Repr: set<StoredSession>

    /** No two tokens share a record, so changing one session in place changes no other. */
    ghost predicate Valid()
      reads this
    {
      && (forall a :: a in sessions ==> sessions[a] in Repr)
      && (forall a, b :: a in sessions && b in sessions && sessions[a] == sessions[b] ==> a == b)
    }

    ghost function Contents(): View
      requires Valid()
      reads this, Repr
    {
      map token | token in sessions :: sessions[token].Value()
    }

    constructor ()
      ensures Valid() && Contents() == map[] && emails == map[] && Repr == {}
    {
      sessions, emails, Repr := map[], map[], {};
    }

    method Put(token: Token, s: Stored)
      requires Valid()
      modifies this`sessions, this`Repr
      ensures Valid() && Contents() == old(Contents())[token := s]
      ensures fresh(Repr - old(Repr))
    {
      var stored := new StoredSession(s);
      Repr := Repr + {stored};
      sessions := sessions[token := stored];
      assert Contents() == old(Contents())[token := s];
    }

    method SetRevoked(token: Token, at: Time)
      requires Valid() && token in sessions
      modifies sessions[token]
      ensures Contents() == old(Contents())[token := old(Contents())[token].(revokedAt := Some(at))]
    {
      sessions[token].revokedAt := Some(at);
      assert Contents() == old(Contents())[token := sessions[token].Value()];
    }

    method SetUserEmail(user: Uuid, email: string)
      requires Valid()
      modifies this`emails
      ensures emails == old(emails)[user := email]
    {
      emails := emails[user := email];
    }

    method ActiveSession(token: Token, now: Time) returns (rejection: Option<Exn>)
      requires Valid()
      ensures rejection == FakeRejection(Contents(), token, now)
      ensures rejection.None? ==> token in sessions
    {
      if token !in sessions {
        return Some(InvalidSessionError(SessionNotFound));
      }
      var stored := sessions[token];
      if stored.revokedAt.Some? {
        return Some(InvalidSessionError(SessionRevoked));
      }
      if stored.absolute <= now || stored.idle <= now {
        return Some(SessionExpiredError);
      }
      return None;
    }

    method Create(c: Call, now: Time) returns (r: Answer)
      requires Valid() && c.CreateCall?
      modifies this`sessions, this`Repr
      ensures Valid() && fresh(Repr - old(Repr))
      ensures (Contents(), r) == FakeCall(emails, old(Contents()), c, now, now)
    {
      var absolute := now + c.absoluteTtlSeconds * SECOND;
      var idle := Least(now + c.idleTtlSeconds * SECOND, absolute);
      Put(c.token, Stored(c.userId, c.tenantId, c.access, c.refresh, c.gotrueExpiresAt, absolute, idle, None));
      r := Created(Expiries(absolute, idle));
    }

    method Get(token: Token, now: Time) returns (r: Answer)
      requires Valid()
      ensures (Contents(), r) == FakeCall(emails, Contents(), GetCall(token), now, now)
    {
      var rejection := ActiveSession(token, now);
      if rejection.Some? {
        return Raised(rejection.value);
      }
      var s := sessions[token];
      var email := if s.userId in emails then Some(emails[s.userId]) else None;
      r := Found(Session(s.userId, s.tenantId, email, s.access, s.refresh, s.gotrueExpiresAt,
                         Expiries(s.absolute, s.idle)));
    }

    method Touch(token: Token, idleTtlSeconds: int, first: Time, second: Time) returns (r: Answer)
      requires Valid()
      modifies Repr
      ensures Valid()
      ensures (Contents(), r) == FakeCall(emails, old(Contents()), TouchCall(token, idleTtlSeconds), first, second)
    {
      var rejection := ActiveSession(token, first);
      if rejection.Some? {
        return Raised(rejection.value);
      }
      var stored := sessions[token];
      stored.idle := Least(second + idleTtlSeconds * SECOND, stored.absolute);
      r := IdleUntil(stored.idle);
      assert Contents() == old(Contents())[token := stored.Value()];
    }

    method Rotate(c: Call, first: Time, second: Time) returns (r: Answer)
      requires Valid() && c.RotateCall?
      modifies this`sessions, this`Repr, Repr
      ensures Valid() && fresh(Repr - old(Repr))
      ensures (Contents(), r) == FakeCall(emails, old(Contents()), c, first, second)
    {
      var rejection := ActiveSession(c.token, first);
      if rejection.Some? {
        return Raised(rejection.value);
      }
      var prior := sessions[c.token];
      var idle := Least(second + c.idleTtlSeconds * SECOND, prior.absolute);
      var successor := Stored(prior.userId, prior.tenantId, c.access, c.refresh, c.gotrueExpiresAt,
                              prior.absolute, idle, None);
      SetRevoked(c.token, second);
      Put(c.newToken, successor);
      r := Created(Expiries(successor.absolute, idle));
    }

    method Revoke(token: Token, now: Time)
      requires Valid()
      modifies Repr
      ensures Valid()
      ensures Contents() == FakeCall(emails, old(Contents()), RevokeCall(token), now, now).0
    {
      if token in sessions {
        if sessions[token].revokedAt.None? {
          SetRevoked(token, now);
        }
      }
    }

    /** The loop visits the records in any order, each once. */
    method RevokeAll(user: Uuid, tenant: Uuid, now: Time) returns (count: nat)
      requires Valid()
      modifies Repr
      ensures Valid()
      ensures (Contents(), Count(count)) == FakeCall(emails, old(Contents()), RevokeAllCall(user, tenant), now, now)
    {
      ghost var before := Contents();
      ghost var done: set<Token> := {};
      count := 0;
      var rest := sessions.Keys;
      assert RevokeTokens(before, done, now) == before;
      while rest != {}
        invariant sessions == old(sessions) && rest <= sessions.Keys
        invariant forall x :: x in done <==> x in ActiveTokens(before, now, user, tenant) && x !in rest
        invariant Contents() == RevokeTokens(before, done, now)
        invariant count == |done|
        decreases rest
      {
        var token :| token in rest;
        assert token in before;
        RevokeOneMore(before, done, token, now);
        var hit := RevokeIfActive(token, user, tenant, now);
        if hit {
          count := count + 1;
          done := done + {token};
        }
        rest := rest - {token};
      }
      assert done == ActiveTokens(before, now, user, tenant);
    }

    /** The body of the loop of RevokeAll. */
    method RevokeIfActive(token: Token, user: Uuid, tenant: Uuid, now: Time) returns (hit: bool)
      requires Valid() && token in sessions
      modifies sessions[token]
      ensures hit == ActiveFor(old(Contents())[token], now, user, tenant)
      ensures hit ==> Contents() == old(Contents())[token := old(Contents())[token].(revokedAt := Some(now))]
      ensures !hit ==> Contents() == old(Contents())
    {
      var stored := sessions[token];
      hit := stored.userId == user && stored.tenantId == tenant && stored.revokedAt.None?
             && stored.absolute > now && stored.idle > now;
      if hit {
        SetRevoked(token, now);
      }
    }
  }
}
