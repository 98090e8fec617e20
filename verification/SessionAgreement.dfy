/** The in-memory repository against the adapter over the stored procedures.

    The two are related when each stored session and each row stand for the same session. Related
    implementations give the same answer to a call exactly when the call stays inside the contract
    the fake does not check: an active membership for a login, an unused token for a new session. */
module SessionAgreement {
  import opened Wrappers
  import opened SessionTable
  import opened SessionRepository

  // ---- The relation -----------------------------------------------------------------------------

  predicate SameSession(k: Crypto, r: Row, s: Stored) {
    && r.userId == s.userId && r.tenantId == s.tenantId
    && k.decrypt(r.tokens.access) == s.access && k.decrypt(r.tokens.refresh) == s.refresh
    && r.tokens.expiresAt == s.gotrueExpiresAt
    && r.absolute == s.absolute && r.idle == s.idle && r.revokedAt == s.revokedAt
  }

  /** Which row stands for a token and which token a row stands for. */
  datatype Coupling = Coupling(rowOf: Token -> Uuid, tokenOf: Uuid -> Token)

  ghost predicate Coupled(k: Crypto, t: Table, v: View, c: Coupling) {
    && UniqueHashes(t)
    && (forall token :: token in v ==> HasHash(t, c.rowOf(token), k.hash(token)) && c.tokenOf(c.rowOf(token)) == token)
    && (forall token :: token in v ==> SameSession(k, t[c.rowOf(token)], v[token]))
    && (forall id :: id in t ==> c.tokenOf(id) in v && c.rowOf(c.tokenOf(id)) == id)
  }

  ghost predicate Related(k: Crypto, t: Table, v: View) { exists c :: Coupled(k, t, v, c) }

  /** No two of the tokens in use have the same sha256 digest. */
  ghost predicate HashesApart(k: Crypto, used: set<Token>) {
    forall a, b :: a in used && b in used && k.hash(a) == k.hash(b) ==> a == b
  }

  ghost predicate Setting(k: Crypto, used: set<Token>, v: View) {
    HashesApart(k, used) && v.Keys <= used && RoundTrips(k)
  }

  /** A lookup by token in the fake and a lookup by hash in the table find the same session. */
  lemma LookupsAgree(k: Crypto, t: Table, v: View, c: Coupling, used: set<Token>, token: Token)
    requires Coupled(k, t, v, c) && Setting(k, used, v) && token in used
    ensures Find(t, k.hash(token)) == if token in v then Some(c.rowOf(token)) else None
  {
    var found := Find(t, k.hash(token));
    if token in v {
      FindUnique(t, c.rowOf(token));
    }
    if found.Some? {
      assert k.hash(c.tokenOf(found.value)) == k.hash(token);
    }
  }

  lemma UpdateKeepsRelated(k: Crypto, t: Table, v: View, c: Coupling, token: Token, r: Row, s: Stored)
    requires Coupled(k, t, v, c) && token in v
    requires r.tokenHash == k.hash(token) && SameSession(k, r, s)
    ensures Coupled(k, t[c.rowOf(token) := r], v[token := s], c)
  {
    var t' := t[c.rowOf(token) := r];
    assert forall i, h :: HasHash(t', i, h) == HasHash(t, i, h);
  }

  lemma InsertKeepsUnique(t: Table, id: Uuid, r: Row)
    requires UniqueHashes(t) && id !in t && !HashInUse(t, r.tokenHash)
    ensures UniqueHashes(t[id := r])
  {
    var u := t[id := r];
    forall a, b, h | HasHash(u, a, h) && HasHash(u, b, h)
      ensures a == b
    {
      assert a != id ==> HasHash(t, a, h);
      assert b != id ==> HasHash(t, b, h);
    }
  }

  /** `c`, and the new row `id` for the new token. */
  function Extended(c: Coupling, token: Token, id: Uuid): Coupling {
    Coupling((x: Token) => (if x == token then id else c.rowOf(x)) as Uuid,
             (i: Uuid) => if i == id then token else c.tokenOf(i))
  }

  lemma InsertedTokensCoupled(k: Crypto, t: Table, v: View, c: Coupling, token: Token, id: Uuid, r: Row, s: Stored,
                              x: Token)
    requires Coupled(k, t, v, c) && token !in v && id !in t
    requires r.tokenHash == k.hash(token) && SameSession(k, r, s) && (x == token || x in v)
    ensures var d := Extended(c, token, id);
            && HasHash(t[id := r], d.rowOf(x), k.hash(x)) && d.tokenOf(d.rowOf(x)) == x
            && SameSession(k, t[id := r][d.rowOf(x)], v[token := s][x])
  {
    if x != token {
      assert HasHash(t, c.rowOf(x), k.hash(x)) && SameSession(k, t[c.rowOf(x)], v[x]);
    }
  }

  lemma InsertKeepsRelated(k: Crypto, t: Table, v: View, c: Coupling, token: Token, id: Uuid, r: Row, s: Stored)
    requires Coupled(k, t, v, c) && token !in v && id !in t && !HashInUse(t, k.hash(token))
    requires r.tokenHash == k.hash(token) && SameSession(k, r, s)
    ensures Related(k, t[id := r], v[token := s])
  {
    var t', v', d := t[id := r], v[token := s], Extended(c, token, id);
    InsertKeepsUnique(t, id, r);
    forall x | x in v'
      ensures HasHash(t', d.rowOf(x), k.hash(x)) && d.tokenOf(d.rowOf(x)) == x && SameSession(k, t'[d.rowOf(x)], v'[x])
    {
      InsertedTokensCoupled(k, t, v, c, token, id, r, s, x);
    }
    forall i | i in t'
      ensures d.tokenOf(i) in v' && d.rowOf(d.tokenOf(i)) == i
    {
      if i != id {
        assert c.tokenOf(i) in v && c.rowOf(c.tokenOf(i)) == i;
      }
    }
    assert Coupled(k, t', v', d);
  }

  // ---- Revoking everything -------------------------------------------------------------------------

  /** Sets of tokens and of row ids that correspond have the same size. */
  lemma {:induction false} SameSize(c: Coupling, tokens: set<Token>, ids: set<Uuid>)
    requires forall a :: a in tokens ==> c.rowOf(a) in ids && c.tokenOf(c.rowOf(a)) == a
    requires forall i :: i in ids ==> c.tokenOf(i) in tokens && c.rowOf(c.tokenOf(i)) == i
    ensures |tokens| == |ids|
    decreases tokens
  {
    if tokens == {} {
      assert ids == {};
    } else {
      var a :| a in tokens;
      SameSize(c, tokens - {a}, ids - {c.rowOf(a)});
    }
  }

  lemma RevokeAllAgrees(k: Crypto, t: Table, v: View, c: Coupling, now: Time, user: Uuid, tenant: Uuid)
    requires Coupled(k, t, v, c)
    ensures |ActiveTokens(v, now, user, tenant)| == |ActiveOf(t, now, user, tenant)|
    ensures Coupled(k, MarkRevoked(t, ActiveOf(t, now, user, tenant), now),
                    RevokeTokens(v, ActiveTokens(v, now, user, tenant), now), c)
  {
    var tokens, ids := ActiveTokens(v, now, user, tenant), ActiveOf(t, now, user, tenant);
    var t' := MarkRevoked(t, ids, now);
    assert forall i, h :: HasHash(t', i, h) == HasHash(t, i, h);
    SameSize(c, tokens, ids);
  }

  // ---- One call ----------------------------------------------------------------------------------

  function TokensOf(c: Call): set<Token> {
    match c
    case CreateCall(token, _, _, _, _, _, _, _, _) => {token}
    case GetCall(token) => {token}
    case TouchCall(token, _) => {token}
    case RotateCall(token, newToken, _, _, _, _) => {token, newToken}
    case RevokeCall(token) => {token}
    case RevokeAllCall(_, _) => {}
  }

  /** The part of the contract that only the database enforces: a login is for an active member of
      an active tenant, and a new session gets a token no stored session has. */
  predicate InContract(v: View, c: Call, now: Time, env: Env) {
    match c
    case CreateCall(token, _, _, _, _, _, _, _, _) => env.tenantActive && env.member && token !in v
    case RotateCall(token, newToken, _, _, _, _) => FakeRejection(v, token, now).Some? || newToken !in v
    case _ => true
  }

  /** The two answers are equal exactly when the call is in the contract, and then the stores stay
      related. */
  ghost predicate AgreesIff(k: Crypto, emails: map<Uuid, string>, t: Table, v: View, call: Call, now: Time, env: Env) {
    var x, y := AdapterCall(k, emails, t, call, now, env), FakeCall(emails, v, call, now, now);
    && (x.1 == y.1 <==> InContract(v, call, now, env))
    && (InContract(v, call, now, env) ==> Related(k, x.0, y.0))
  }

  lemma CreateAgrees(k: Crypto, emails: map<Uuid, string>, t: Table, v: View, c: Coupling, used: set<Token>,
                     call: Call, now: Time, env: Env)
    requires Coupled(k, t, v, c) && Setting(k, used, v) && call.CreateCall? && call.token in used && env.newId !in t
    ensures AgreesIff(k, emails, t, v, call, now, env)
  {
    LookupsAgree(k, t, v, c, used, call.token);
    if InContract(v, call, now, env) {
      var x, y := AdapterCall(k, emails, t, call, now, env), FakeCall(emails, v, call, now, now);
      InsertKeepsRelated(k, t, v, c, call.token, env.newId, x.0[env.newId], y.0[call.token]);
    }
  }

  /** After a rotation: the old row and record revoked, then the new ones inserted. */
  lemma RotationKeepsRelated(k: Crypto, t: Table, v: View, c: Coupling, used: set<Token>, token: Token, next: Token,
                             now: Time, newId: Uuid, r: Row, s: Stored)
    requires Coupled(k, t, v, c) && Setting(k, used, v) && {token, next} <= used && newId !in t
    requires token in v && next !in v && r.tokenHash == k.hash(next) && SameSession(k, r, s)
    ensures !HashInUse(t, k.hash(next))
    ensures Related(k, MarkRevoked(t[newId := r], {c.rowOf(token)}, now),
                    v[token := v[token].(revokedAt := Some(now))][next := s])
  {
    LookupsAgree(k, t, v, c, used, token);
    LookupsAgree(k, t, v, c, used, next);
    var id := c.rowOf(token);
    var revoked, stored := t[id].(revokedAt := Some(now)), v[token].(revokedAt := Some(now));
    UpdateKeepsRelated(k, t, v, c, token, revoked, stored);
    var t' := t[id := revoked];
    assert forall i, h :: HasHash(t', i, h) == HasHash(t, i, h);
    InsertKeepsRelated(k, t', v[token := stored], c, next, newId, r, s);
    assert MarkRevoked(t[newId := r], {id}, now) == t'[newId := r];
  }

  lemma RefusedRotateAgrees(k: Crypto, emails: map<Uuid, string>, t: Table, v: View, c: Coupling, used: set<Token>,
                            call: Call, now: Time, env: Env)
    requires Coupled(k, t, v, c) && Setting(k, used, v) && call.RotateCall? && TokensOf(call) <= used
    requires FakeRejection(v, call.token, now).Some? || call.newToken in v
    ensures AgreesIff(k, emails, t, v, call, now, env)
  {
    LookupsAgree(k, t, v, c, used, call.token);
    LookupsAgree(k, t, v, c, used, call.newToken);
  }

  lemma MintedRotateAgrees(k: Crypto, emails: map<Uuid, string>, t: Table, v: View, c: Coupling, used: set<Token>,
                           call: Call, now: Time, env: Env)
    requires Coupled(k, t, v, c) && Setting(k, used, v) && call.RotateCall? && TokensOf(call) <= used && env.newId !in t
    requires FakeRejection(v, call.token, now).None? && call.newToken !in v
    ensures AgreesIff(k, emails, t, v, call, now, env)
  {
    var token, next := call.token, call.newToken;
    LookupsAgree(k, t, v, c, used, token);
    var id := c.rowOf(token);
    var n := Rotation(k.hash(next), Sealed(k, call.access, call.refresh, call.gotrueExpiresAt, env),
                      call.idleTtlSeconds * SECOND);
    var r := SuccessorRow(t[id], id, now, n);
    var s := Stored(v[token].userId, v[token].tenantId, call.access, call.refresh, call.gotrueExpiresAt,
                    r.absolute, r.idle, None);
    RotationKeepsRelated(k, t, v, c, used, token, next, now, env.newId, r, s);
    assert Rotate(t, now, k.hash(token), env.newId, n) == RotateLocked(t, id, t[id], now, env.newId, n);
  }

  lemma RotateAgrees(k: Crypto, emails: map<Uuid, string>, t: Table, v: View, c: Coupling, used: set<Token>,
                     call: Call, now: Time, env: Env)
    requires Coupled(k, t, v, c) && Setting(k, used, v) && call.RotateCall? && TokensOf(call) <= used && env.newId !in t
    ensures AgreesIff(k, emails, t, v, call, now, env)
  {
    var token, next := call.token, call.newToken;
    if FakeRejection(v, token, now).Some? || next in v {
      RefusedRotateAgrees(k, emails, t, v, c, used, call, now, env);
    } else {
      MintedRotateAgrees(k, emails, t, v, c, used, call, now, env);
    }
  }

  lemma GetAgrees(k: Crypto, emails: map<Uuid, string>, t: Table, v: View, c: Coupling, used: set<Token>,
                  call: Call, now: Time, env: Env)
    requires Coupled(k, t, v, c) && Setting(k, used, v) && call.GetCall? && call.token in used
    ensures AgreesIff(k, emails, t, v, call, now, env)
  {
    LookupsAgree(k, t, v, c, used, call.token);
  }

  lemma TouchAgrees(k: Crypto, emails: map<Uuid, string>, t: Table, v: View, c: Coupling, used: set<Token>,
                    call: Call, now: Time, env: Env)
    requires Coupled(k, t, v, c) && Setting(k, used, v) && call.TouchCall? && call.token in used
    ensures AgreesIff(k, emails, t, v, call, now, env)
  {
    var token := call.token;
    LookupsAgree(k, t, v, c, used, token);
    if FakeRejection(v, token, now).None? {
      var idle := Least(now + call.idleTtlSeconds * SECOND, v[token].absolute);
      UpdateKeepsRelated(k, t, v, c, token, t[c.rowOf(token)].(idle := idle, lastSeenAt := now),
                         v[token].(idle := idle));
    }
  }

  lemma RevokeAgrees(k: Crypto, emails: map<Uuid, string>, t: Table, v: View, c: Coupling, used: set<Token>,
                     call: Call, now: Time, env: Env)
    requires Coupled(k, t, v, c) && Setting(k, used, v) && call.RevokeCall? && call.token in used
    ensures AgreesIff(k, emails, t, v, call, now, env)
  {
    var token := call.token;
    LookupsAgree(k, t, v, c, used, token);
    if token in v && v[token].revokedAt.None? {
      var id := c.rowOf(token);
      var r := t[id].(revokedAt := Some(now));
      UpdateKeepsRelated(k, t, v, c, token, r, v[token].(revokedAt := Some(now)));
      assert MarkRevoked(t, {id}, now) == t[id := r];
    }
  }

  /** On related stores the adapter and the fake give the same answer to a call, whichever call it
      is and whatever it finds, exactly when the call is in the contract; and then the stores stay
      related. */
  lemma CallAgreesIff(k: Crypto, emails: map<Uuid, string>, t: Table, v: View, used: set<Token>, call: Call,
                      now: Time, env: Env)
    requires Related(k, t, v) && Setting(k, used, v) && TokensOf(call) <= used && env.newId !in t
    ensures var x, y := AdapterCall(k, emails, t, call, now, env), FakeCall(emails, v, call, now, now);
            && (x.1 == y.1 <==> InContract(v, call, now, env))
            && (InContract(v, call, now, env) ==> Related(k, x.0, y.0))
  {
    var c :| Coupled(k, t, v, c);
    match call
    case CreateCall(_, _, _, _, _, _, _, _, _) => CreateAgrees(k, emails, t, v, c, used, call, now, env);
    case GetCall(_) => GetAgrees(k, emails, t, v, c, used, call, now, env);
    case TouchCall(_, _) => TouchAgrees(k, emails, t, v, c, used, call, now, env);
    case RotateCall(_, _, _, _, _, _) => RotateAgrees(k, emails, t, v, c, used, call, now, env);
    case RevokeCall(_) => RevokeAgrees(k, emails, t, v, c, used, call, now, env);
    case RevokeAllCall(user, tenant) => RevokeAllAgrees(k, t, v, c, now, user, tenant);
  }

  // ---- Any sequence of calls -----------------------------------------------------------------------

  datatype Moment = Moment(call: Call, now: Time, env: Env)

  ghost function AdapterAnswers(k: Crypto, emails: map<Uuid, string>, t: Table, ms: seq<Moment>): seq<Answer>
    decreases |ms|
  {
    if ms == [] then []
    else
      var x := AdapterCall(k, emails, t, ms[0].call, ms[0].now, ms[0].env);
      [x.1] + AdapterAnswers(k, emails, x.0, ms[1..])
  }

  function FakeAnswers(emails: map<Uuid, string>, v: View, ms: seq<Moment>): seq<Answer>
    decreases |ms|
  {
    if ms == [] then []
    else
      var y := FakeCall(emails, v, ms[0].call, ms[0].now, ms[0].now);
      [y.1] + FakeAnswers(emails, y.0, ms[1..])
  }

  /** Each call is in the contract when it is made. */
  predicate AllInContract(emails: map<Uuid, string>, v: View, ms: seq<Moment>)
    decreases |ms|
  {
    ms == [] ||
    (InContract(v, ms[0].call, ms[0].now, ms[0].env)
     && AllInContract(emails, FakeCall(emails, v, ms[0].call, ms[0].now, ms[0].now).0, ms[1..]))
  }

  /** Each id the database draws is new. */
  ghost predicate IdsFresh(k: Crypto, emails: map<Uuid, string>, t: Table, ms: seq<Moment>)
    decreases |ms|
  {
    ms == [] ||
    (ms[0].env.newId !in t
     && IdsFresh(k, emails, AdapterCall(k, emails, t, ms[0].call, ms[0].now, ms[0].env).0, ms[1..]))
  }

  lemma FakeKeepsTokens(emails: map<Uuid, string>, v: View, c: Call, now: Time, used: set<Token>)
    requires v.Keys <= used && TokensOf(c) <= used
    ensures FakeCall(emails, v, c, now, now).0.Keys <= used
  {
  }

  lemma {:induction false} RunsAgree(k: Crypto, emails: map<Uuid, string>, t: Table, v: View, used: set<Token>,
                                     ms: seq<Moment>)
    requires Related(k, t, v) && Setting(k, used, v) && (forall m :: m in ms ==> TokensOf(m.call) <= used)
    requires AllInContract(emails, v, ms) && IdsFresh(k, emails, t, ms)
    ensures AdapterAnswers(k, emails, t, ms) == FakeAnswers(emails, v, ms)
    decreases |ms|
  {
    if ms != [] {
      var m := ms[0];
      assert m in ms && forall n :: n in ms[1..] ==> n in ms;
      CallAgreesIff(k, emails, t, v, used, m.call, m.now, m.env);
      FakeKeepsTokens(emails, v, m.call, m.now, used);
      var x, y := AdapterCall(k, emails, t, m.call, m.now, m.env), FakeCall(emails, v, m.call, m.now, m.now);
      RunsAgree(k, emails, x.0, y.0, used, ms[1..]);
    }
  }

  /** From the empty store, any sequence of calls gets the same expiries, sessions, counts and
      exceptions from both implementations. */
  lemma FakeAgreesWithAdapter(k: Crypto, emails: map<Uuid, string>, used: set<Token>, ms: seq<Moment>)
    requires RoundTrips(k) && HashesApart(k, used) && (forall m :: m in ms ==> TokensOf(m.call) <= used)
    requires AllInContract(emails, map[], ms) && IdsFresh(k, emails, map[], ms)
    ensures AdapterAnswers(k, emails, map[], ms) == FakeAnswers(emails, map[], ms)
  {
    assert Coupled(k, map[], map[], Coupling(_ => 0, _ => ""));
    RunsAgree(k, emails, map[], map[], used, ms);
  }
}
