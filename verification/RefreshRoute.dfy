/** When a refresh, or a request that only authenticates, succeeds, and what a refresh leaves behind. */
module RefreshRoute {
  import opened Wrappers
  import opened SessionTable
  import opened SessionProtocol
  import opened SessionSafety
  import opened AuthRoutes

  // ---- One move of a request that runs alone -----------------------------------------------------------

  /** The world `w` with the store `s` and the request `rid` at its point `at`. */
  function Onwards(w: World, s: State, rid: Rid, kind: Kind, token: Token, at: Point): World {
    World(s, w.reqs[rid := Running(kind, token, at)])
  }

  ghost predicate Waits(w: World, rid: Rid, kind: Kind, token: Token, at: Point) {
    && rid in w.reqs && w.reqs[rid] == Running(kind, token, at)
    && UniqueHashes(w.db.rows) && w.db.txns.Keys <= {rid}
  }

  function Seen(s: State, h: Digest): State { s.(seen := s.seen + {h}) }

  ghost predicate Works(hash: Token -> Digest, w: World, ms: seq<Move>, rid: Rid, kind: Kind, token: Token) {
    Plays(hash, w, ms) && Succeeded(End(hash, w, ms), rid, kind, token)
  }

  lemma GoesOn(hash: Token -> Digest, w: World, m: Move, rest: seq<Move>, rid: Rid, kind: Kind, token: Token)
    requires Allowed(hash, w, m)
    ensures Works(hash, w, [m] + rest, rid, kind, token) <==> Works(hash, Moved(hash, w, m), rest, rid, kind, token)
    ensures Plays(hash, Moved(hash, w, m), rest) ==> End(hash, w, [m] + rest) == End(hash, Moved(hash, w, m), rest)
  {
    assert ([m] + rest)[0] == m && ([m] + rest)[1..] == rest;
  }

  /** After a refusal the request makes no further move. */
  lemma RefusalEnds(hash: Token -> Digest, w: World, m: Move, rest: seq<Move>, rid: Rid, kind: Kind, token: Token)
    requires Allowed(hash, w, m) && rid in Moved(hash, w, m).reqs
    requires Moved(hash, w, m).reqs[rid] == Finished(kind, token, false)
    requires rest == [] || (rest[0].Act? && rest[0].rid == rid)
    ensures !Works(hash, w, [m] + rest, rid, kind, token)
  {
    GoesOn(hash, w, m, rest, rid, kind, token);
  }

  /** A read by the token of row `id`. */
  lemma ReadMove(hash: Token -> Digest, w: World, rid: Rid, kind: Kind, token: Token, at: Point, id: Uuid, now: Time)
    requires Waits(w, rid, kind, token, at) && (at.AuthGet? || (at.HandlerGet? && kind.Refresh?))
    requires HasHash(w.db.rows, id, hash(token))
    ensures var m := Act(rid, GetSession(now, hash(token)));
            && Allowed(hash, w, m)
            && Moved(hash, w, m) == if Active(w.db.rows[id], now)
                                    then Onwards(w, Seen(w.db, hash(token)), rid, kind, token,
                                                 if at.AuthGet? then AuthTouch else HandlerAct)
                                    else World(Seen(w.db, hash(token)), w.reqs[rid := Finished(kind, token, false)])
  {
    FindUnique(w.db.rows, id);
  }

  lemma TouchMove(hash: Token -> Digest, w: World, rid: Rid, kind: Kind, token: Token, id: Uuid, now: Time, ttl: int)
    requires Waits(w, rid, kind, token, AuthTouch) && w.db.txns == map[] && HasHash(w.db.rows, id, hash(token))
    ensures var m, s := Act(rid, TouchSelect(rid, now, hash(token), ttl)), Seen(w.db, hash(token));
            && Allowed(hash, w, m)
            && Moved(hash, w, m) ==
                 if Active(w.db.rows[id], now)
                 then Onwards(w, s.(txns := map[rid := Touching(now, id, ttl)]), rid, kind, token, AuthSlide)
                 else World(s, w.reqs[rid := Finished(kind, token, false)])
  {
    FindUnique(w.db.rows, id);
    assert map[rid := Touching(now, id, ttl)] == w.db.txns[rid := Touching(now, id, ttl)];
  }

  function TouchedRow(r: Row, now: Time, ttl: int): Row { r.(idle := Least(now + ttl, r.absolute), lastSeenAt := now) }

  function AfterTouch(s: State, id: Uuid, now: Time, ttl: int): State
    requires id in s.rows
  {
    s.(rows := s.rows[id := TouchedRow(s.rows[id], now, ttl)], txns := map[])
  }

  lemma SlideMove(hash: Token -> Digest, w: World, rid: Rid, kind: Kind, token: Token, id: Uuid, now: Time, ttl: int)
    requires Waits(w, rid, kind, token, AuthSlide) && w.db.txns == map[rid := Touching(now, id, ttl)] && id in w.db.rows
    ensures var m, s := Act(rid, TouchUpdate(rid)), AfterTouch(w.db, id, now, ttl);
            && Allowed(hash, w, m)
            && Moved(hash, w, m) == if kind.Plain? then World(s, w.reqs[rid := Finished(kind, token, true)])
                                    else Onwards(w, s, rid, kind, token, HandlerGet)
  {
    assert w.db.txns - {rid} == map[];
  }

  lemma LockMove(hash: Token -> Digest, w: World, rid: Rid, token: Token, id: Uuid, now: Time)
    requires Waits(w, rid, Refresh, token, HandlerAct) && w.db.txns == map[] && HasHash(w.db.rows, id, hash(token))
    ensures var m, s := Act(rid, RotateLock(rid, now, hash(token))), Seen(w.db, hash(token));
            && Allowed(hash, w, m)
            && Moved(hash, w, m) == Onwards(w, s.(txns := map[rid := Rotating(now, id, w.db.rows[id])]),
                                            rid, Refresh, token, HandlerCommit)
  {
    FindUnique(w.db.rows, id);
    assert map[rid := Rotating(now, id, w.db.rows[id])] == w.db.txns[rid := Rotating(now, id, w.db.rows[id])];
  }

  /** The id and the hash that the rotation brings have not been used. */
  predicate NewNames(s: State, newId: Uuid, n: Rotation) { newId !in s.origins && n.newHash !in s.seen }

  function RotatedRows(t: Table, id: Uuid, now: Time, newId: Uuid, n: Rotation): Table
    requires id in t
  {
    MarkRevoked(t[newId := SuccessorRow(t[id], id, now, n)], {id}, now)
  }

  lemma CommitMove(hash: Token -> Digest, w: World, rid: Rid, token: Token, id: Uuid, now: Time,
                   newId: Uuid, n: Rotation)
    requires Waits(w, rid, Refresh, token, HandlerCommit) && History(w.db) && HasHash(w.db.rows, id, hash(token))
    requires w.db.txns == map[rid := Rotating(now, id, w.db.rows[id])]
    ensures var m := Act(rid, RotateCommit(rid, newId, n));
            && (Works(hash, w, [m], rid, Refresh, token) <==> NewNames(w.db, newId, n) && Active(w.db.rows[id], now))
            && (Works(hash, w, [m], rid, Refresh, token) ==>
                 End(hash, w, [m]).db.rows == RotatedRows(w.db.rows, id, now, newId, n))
  {
    var m := Act(rid, RotateCommit(rid, newId, n));
    assert [m][1..] == [] && [m][0] == m;
    if NewNames(w.db, newId, n) {
      FreshHashIsUnused(w.db, n.newHash);
      assert Allowed(hash, w, m);
      assert End(hash, w, [m]) == Moved(hash, w, m);
    }
  }

  // ---- A plain request --------------------------------------------------------------------------------------

  function PlainMoves(hash: Token -> Digest, rid: Rid, token: Token, t1: Time, t2: Time, ttl: int): seq<Move> {
    [Arrive(rid, Plain, token)] + AuthMoves(hash, rid, token, t1, t2, ttl, [])
  }

  /** Authentication, and then the moves `rest`. */
  function AuthMoves(hash: Token -> Digest, rid: Rid, token: Token, t1: Time, t2: Time, ttl: int, rest: seq<Move>)
    : seq<Move>
  {
    var h := hash(token);
    [Act(rid, GetSession(t1, h))] + ([Act(rid, TouchSelect(rid, t2, h, ttl))] + ([Act(rid, TouchUpdate(rid))] + rest))
  }

  /** The world once authentication has passed. */
  function Authenticated(w: World, rid: Rid, kind: Kind, token: Token, id: Uuid, h: Digest, now: Time, ttl: int): World
    requires id in w.db.rows
  {
    var s := AfterTouch(Seen(w.db, h), id, now, ttl);
    if kind.Plain? then World(s, w.reqs[rid := Finished(kind, token, true)])
    else Onwards(w, s, rid, kind, token, HandlerGet)
  }

  lemma TouchPassesIff(hash: Token -> Digest, w: World, rid: Rid, kind: Kind, token: Token, id: Uuid,
                       t2: Time, ttl: int, rest: seq<Move>)
    requires Waits(w, rid, kind, token, AuthTouch) && w.db.txns == map[] && HasHash(w.db.rows, id, hash(token))
    requires rest == [] || (rest[0].Act? && rest[0].rid == rid)
    ensures var ms := [Act(rid, TouchSelect(rid, t2, hash(token), ttl))] + ([Act(rid, TouchUpdate(rid))] + rest);
            var u := Authenticated(w, rid, kind, token, id, hash(token), t2, ttl);
            && (Works(hash, w, ms, rid, kind, token) <==>
                 Active(w.db.rows[id], t2) && Works(hash, u, rest, rid, kind, token))
            && (Works(hash, w, ms, rid, kind, token) ==> End(hash, w, ms) == End(hash, u, rest))
  {
    var h := hash(token);
    var b, c := Act(rid, TouchSelect(rid, t2, h, ttl)), Act(rid, TouchUpdate(rid));
    TouchMove(hash, w, rid, kind, token, id, t2, ttl);
    GoesOn(hash, w, b, [c] + rest, rid, kind, token);
    if !Active(w.db.rows[id], t2) {
      RefusalEnds(hash, w, b, [c] + rest, rid, kind, token);
    } else {
      var v := Onwards(w, Seen(w.db, h).(txns := map[rid := Touching(t2, id, ttl)]), rid, kind, token, AuthSlide);
      SlideMove(hash, v, rid, kind, token, id, t2, ttl);
      GoesOn(hash, v, c, rest, rid, kind, token);
      var q := if kind.Plain? then Finished(kind, token, true) else Running(kind, token, HandlerGet);
      assert v.reqs[rid := q] == w.reqs[rid := q];
      assert Moved(hash, v, c) == Authenticated(w, rid, kind, token, id, h, t2, ttl);
    }
  }

  /** Authentication of a request passes exactly when the row of its token is active at its read and at its
      touch, and leaves the row touched. */
  lemma AuthPassesIff(hash: Token -> Digest, w: World, rid: Rid, kind: Kind, token: Token, id: Uuid,
                      t1: Time, t2: Time, ttl: int, rest: seq<Move>)
    requires Waits(w, rid, kind, token, AuthGet) && w.db.txns == map[] && HasHash(w.db.rows, id, hash(token))
    requires rest == [] || (rest[0].Act? && rest[0].rid == rid)
    ensures var ms := AuthMoves(hash, rid, token, t1, t2, ttl, rest);
            var u := Authenticated(w, rid, kind, token, id, hash(token), t2, ttl);
            && (Works(hash, w, ms, rid, kind, token) <==>
                 Active(w.db.rows[id], t1) && Active(w.db.rows[id], t2) && Works(hash, u, rest, rid, kind, token))
            && (Works(hash, w, ms, rid, kind, token) ==> End(hash, w, ms) == End(hash, u, rest))
  {
    var h := hash(token);
    var a := Act(rid, GetSession(t1, h));
    var tail := [Act(rid, TouchSelect(rid, t2, h, ttl))] + ([Act(rid, TouchUpdate(rid))] + rest);
    ReadMove(hash, w, rid, kind, token, AuthGet, id, t1);
    GoesOn(hash, w, a, tail, rid, kind, token);
    if !Active(w.db.rows[id], t1) {
      RefusalEnds(hash, w, a, tail, rid, kind, token);
    } else {
      var v := Onwards(w, Seen(w.db, h), rid, kind, token, AuthTouch);
      TouchPassesIff(hash, v, rid, kind, token, id, t2, ttl, rest);
      var q := if kind.Plain? then Finished(kind, token, true) else Running(kind, token, HandlerGet);
      assert v.reqs[rid := q] == w.reqs[rid := q];
      assert Seen(v.db, h) == Seen(w.db, h);
    }
  }

  /** Without a row for its token the request is refused at its first read. */
  lemma UnknownTokenFails(hash: Token -> Digest, w: World, rid: Rid, kind: Kind, token: Token,
                          t1: Time, t2: Time, ttl: int, rest: seq<Move>)
    requires Waits(w, rid, kind, token, AuthGet) && !HashInUse(w.db.rows, hash(token))
    ensures !Works(hash, w, AuthMoves(hash, rid, token, t1, t2, ttl, rest), rid, kind, token)
  {
    var h := hash(token);
    var a, b, c := Act(rid, GetSession(t1, h)), Act(rid, TouchSelect(rid, t2, h, ttl)), Act(rid, TouchUpdate(rid));
    RefusalEnds(hash, w, a, [b] + ([c] + rest), rid, kind, token);
  }

  /** A request that only authenticates, with no other coming between, succeeds exactly when a row carries the
      token's hash and is un-revoked and unexpired at its read and at its touch; then that row is touched. */
  lemma PlainSucceedsIff(hash: Token -> Digest, w: World, rid: Rid, token: Token, t1: Time, t2: Time, ttl: int)
    requires WorldInv(hash, w) && w.db.txns == map[] && rid !in w.reqs
    ensures var ms, t := PlainMoves(hash, rid, token, t1, t2, ttl), w.db.rows;
            && (Works(hash, w, ms, rid, Plain, token) <==>
                 exists id :: HasHash(t, id, hash(token)) && UsableAt(t[id], t1) && UsableAt(t[id], t2))
            && (forall id :: HasHash(t, id, hash(token)) && Works(hash, w, ms, rid, Plain, token) ==>
                 End(hash, w, ms).db.rows == t[id := TouchedRow(t[id], t2, ttl)])
  {
    var h, u := hash(token), Onwards(w, w.db, rid, Plain, token, AuthGet);
    var arrive, auth := Arrive(rid, Plain, token), AuthMoves(hash, rid, token, t1, t2, ttl, []);
    GoesOn(hash, w, arrive, auth, rid, Plain, token);
    assert Moved(hash, w, arrive) == u;
    if HashInUse(w.db.rows, h) {
      var id :| HasHash(w.db.rows, id, h);
      AuthPassesIff(hash, u, rid, Plain, token, id, t1, t2, ttl, []);
      assert forall i :: HasHash(w.db.rows, i, h) ==> i == id;
    } else {
      UnknownTokenFails(hash, u, rid, Plain, token, t1, t2, ttl, []);
    }
  }

  /** Un-revoked and before both its expiries. */
  predicate UsableAt(r: Row, now: Time) { r.revokedAt == None && now < r.absolute && now < r.idle }

  // ---- A refresh ----------------------------------------------------------------------------------------------

  /** What follows authentication: the read of the handler, the lock and the commit of the rotation. */
  function HandlerMoves(hash: Token -> Digest, rid: Rid, token: Token, t3: Time, t4: Time, newId: Uuid, n: Rotation)
    : seq<Move>
  {
    var h := hash(token);
    [Act(rid, GetSession(t3, h))] + ([Act(rid, RotateLock(rid, t4, h))] + [Act(rid, RotateCommit(rid, newId, n))])
  }

  function RefreshMoves(hash: Token -> Digest, rid: Rid, token: Token, t1: Time, t2: Time, ttl: int,
                        t3: Time, t4: Time, newId: Uuid, n: Rotation): seq<Move>
  {
    [Arrive(rid, Refresh, token)]
    + AuthMoves(hash, rid, token, t1, t2, ttl, HandlerMoves(hash, rid, token, t3, t4, newId, n))
  }

  lemma HandlerRotatesIff(hash: Token -> Digest, w: World, rid: Rid, token: Token, id: Uuid,
                          t3: Time, t4: Time, newId: Uuid, n: Rotation)
    requires Waits(w, rid, Refresh, token, HandlerGet) && w.db.txns == map[] && HasHash(w.db.rows, id, hash(token))
    requires History(w.db)
    ensures var ms := HandlerMoves(hash, rid, token, t3, t4, newId, n);
            && (Works(hash, w, ms, rid, Refresh, token) <==>
                 && Active(w.db.rows[id], t3) && Active(w.db.rows[id], t4)
                 && NewNames(Seen(w.db, hash(token)), newId, n))
            && (Works(hash, w, ms, rid, Refresh, token) ==>
                 End(hash, w, ms).db.rows == RotatedRows(w.db.rows, id, t4, newId, n))
  {
    var h := hash(token);
    var a, b, c := Act(rid, GetSession(t3, h)), Act(rid, RotateLock(rid, t4, h)), Act(rid, RotateCommit(rid, newId, n));
    ReadMove(hash, w, rid, Refresh, token, HandlerGet, id, t3);
    GoesOn(hash, w, a, [b] + [c], rid, Refresh, token);
    if !Active(w.db.rows[id], t3) {
      RefusalEnds(hash, w, a, [b] + [c], rid, Refresh, token);
    } else {
      var w1 := Onwards(w, Seen(w.db, h), rid, Refresh, token, HandlerAct);
      LockMove(hash, w1, rid, token, id, t4);
      GoesOn(hash, w1, b, [c], rid, Refresh, token);
      var w2 := Onwards(w1, Seen(w1.db, h).(txns := map[rid := Rotating(t4, id, w.db.rows[id])]), rid, Refresh, token,
                        HandlerCommit);
      assert Seen(w1.db, h) == Seen(w.db, h);
      CommitMove(hash, w2, rid, token, id, t4, newId, n);
    }
  }

  /** The row of the token lets a refresh with these start times through: usable at the first read and the
      touch, and, with the idle expiry the touch set, at the second read and the rotation. */
  predicate LetsRefresh(r: Row, t1: Time, t2: Time, ttl: int, t3: Time, t4: Time) {
    && UsableAt(r, t1) && UsableAt(r, t2)
    && t3 < r.absolute && t3 < t2 + ttl && t4 < r.absolute && t4 < t2 + ttl
  }

  lemma RefreshOfRowIff(hash: Token -> Digest, w: World, rid: Rid, token: Token, id: Uuid,
                        t1: Time, t2: Time, ttl: int, t3: Time, t4: Time, newId: Uuid, n: Rotation)
    requires Waits(w, rid, Refresh, token, AuthGet) && w.db.txns == map[] && Inv(w.db)
    requires HasHash(w.db.rows, id, hash(token))
    ensures var ms := AuthMoves(hash, rid, token, t1, t2, ttl, HandlerMoves(hash, rid, token, t3, t4, newId, n));
            && (Works(hash, w, ms, rid, Refresh, token) <==>
                 LetsRefresh(w.db.rows[id], t1, t2, ttl, t3, t4) && NewNames(Seen(w.db, hash(token)), newId, n))
            && (Works(hash, w, ms, rid, Refresh, token) ==>
                 End(hash, w, ms).db.rows
                 == RotatedRows(w.db.rows[id := TouchedRow(w.db.rows[id], t2, ttl)], id, t4, newId, n))
  {
    var h, rest := hash(token), HandlerMoves(hash, rid, token, t3, t4, newId, n);
    var s := AfterTouch(Seen(w.db, h), id, t2, ttl);
    var u := Onwards(w, s, rid, Refresh, token, HandlerGet);
    AuthPassesIff(hash, w, rid, Refresh, token, id, t1, t2, ttl, rest);
    TouchKeepsHashes(w.db.rows, id, t2, ttl);
    HandlerRotatesIff(hash, u, rid, token, id, t3, t4, newId, n);
    assert Seen(s, h).seen == Seen(w.db, h).seen;
  }

  lemma TouchKeepsHashes(t: Table, id: Uuid, now: Time, ttl: int)
    requires id in t
    ensures forall i, h :: HasHash(t[id := TouchedRow(t[id], now, ttl)], i, h) <==> HasHash(t, i, h)
    ensures UniqueHashes(t) ==> UniqueHashes(t[id := TouchedRow(t[id], now, ttl)])
  {
    var u := t[id := TouchedRow(t[id], now, ttl)];
    forall i, h
      ensures HasHash(u, i, h) <==> HasHash(t, i, h)
    {
    }
  }

  /** A refresh that no other request comes between succeeds exactly when a row carries the token's hash, is
      un-revoked and unexpired at the start of the first read and of the touch, and, touched, still so at
      the start of the second read and of the rotation, and the names the rotation brings are new. */
  lemma RefreshSucceedsIff(hash: Token -> Digest, w: World, rid: Rid, token: Token,
                           t1: Time, t2: Time, ttl: int, t3: Time, t4: Time, newId: Uuid, n: Rotation)
    requires WorldInv(hash, w) && w.db.txns == map[] && rid !in w.reqs
    ensures Works(hash, w, RefreshMoves(hash, rid, token, t1, t2, ttl, t3, t4, newId, n), rid, Refresh, token)
            <==> && NewNames(Seen(w.db, hash(token)), newId, n)
                 && exists id :: HasHash(w.db.rows, id, hash(token)) && LetsRefresh(w.db.rows[id], t1, t2, ttl, t3, t4)
  {
    var h, u := hash(token), Onwards(w, w.db, rid, Refresh, token, AuthGet);
    var arrive, rest := Arrive(rid, Refresh, token), HandlerMoves(hash, rid, token, t3, t4, newId, n);
    GoesOn(hash, w, arrive, AuthMoves(hash, rid, token, t1, t2, ttl, rest), rid, Refresh, token);
    assert Moved(hash, w, arrive) == u;
    if HashInUse(w.db.rows, h) {
      var id :| HasHash(w.db.rows, id, h);
      RefreshOfRowIff(hash, u, rid, token, id, t1, t2, ttl, t3, t4, newId, n);
      assert forall i :: HasHash(w.db.rows, i, h) ==> i == id;
    } else {
      UnknownTokenFails(hash, u, rid, Refresh, token, t1, t2, ttl, rest);
    }
  }

  /** Afterwards the old token is refused, and the new one resolves to the same user, tenant and absolute
      expiry, exactly while it is before that expiry and within its idle time; no other row has changed. */
  lemma RefreshHandsOver(hash: Token -> Digest, w: World, rid: Rid, token: Token, id: Uuid,
                         t1: Time, t2: Time, ttl: int, t3: Time, t4: Time, newId: Uuid, n: Rotation, now: Time)
    requires WorldInv(hash, w) && w.db.txns == map[] && rid !in w.reqs && HasHash(w.db.rows, id, hash(token))
    requires Works(hash, w, RefreshMoves(hash, rid, token, t1, t2, ttl, t3, t4, newId, n), rid, Refresh, token)
    ensures var t := w.db.rows;
            var u := End(hash, w, RefreshMoves(hash, rid, token, t1, t2, ttl, t3, t4, newId, n)).db.rows;
            && u.Keys == t.Keys + {newId} && newId !in t
            && (forall i :: i in t && i != id ==> u[i] == t[i])
            && Get(u, now, hash(token)) == Error(SessionRevoked)
            && (Get(u, now, n.newHash) == Ok(u[newId]) <==> now < t[id].absolute && now < t4 + n.idleTtl)
            && u[newId].userId == t[id].userId && u[newId].tenantId == t[id].tenantId
            && u[newId].absolute == t[id].absolute && u[newId].tokens == n.tokens && u[newId].tokenHash == n.newHash
  {
    var h, v := hash(token), Onwards(w, w.db, rid, Refresh, token, AuthGet);
    var arrive, rest := Arrive(rid, Refresh, token), HandlerMoves(hash, rid, token, t3, t4, newId, n);
    GoesOn(hash, w, arrive, AuthMoves(hash, rid, token, t1, t2, ttl, rest), rid, Refresh, token);
    assert Moved(hash, w, arrive) == v;
    RefreshOfRowIff(hash, v, rid, token, id, t1, t2, ttl, t3, t4, newId, n);
    RotatedRowsHandOver(w.db.rows, id, t2, ttl, t4, newId, n, now) by {
      FreshHashIsUnused(w.db, n.newHash);
    }
  }

  lemma RotatedRowsHandOver(t: Table, id: Uuid, t2: Time, ttl: int, t4: Time, newId: Uuid, n: Rotation, now: Time)
    requires UniqueHashes(t) && id in t && newId !in t && !HashInUse(t, n.newHash)
    ensures var u := RotatedRows(t[id := TouchedRow(t[id], t2, ttl)], id, t4, newId, n);
            && u.Keys == t.Keys + {newId} && (forall i :: i in t && i != id ==> u[i] == t[i])
            && Get(u, now, t[id].tokenHash) == Error(SessionRevoked)
            && (Get(u, now, n.newHash) == Ok(u[newId]) <==> now < t[id].absolute && now < t4 + n.idleTtl)
            && u[newId].userId == t[id].userId && u[newId].tenantId == t[id].tenantId
            && u[newId].absolute == t[id].absolute && u[newId].tokens == n.tokens && u[newId].tokenHash == n.newHash
  {
    var u := RotatedRows(t[id := TouchedRow(t[id], t2, ttl)], id, t4, newId, n);
    assert forall i, h :: HasHash(u, i, h) <==> HasHash(t, i, h) || (i == newId && h == n.newHash);
    assert HasHash(t, id, t[id].tokenHash) && HasHash(u, id, t[id].tokenHash) && HasHash(u, newId, n.newHash);
    GetAnswers(u, now, t[id].tokenHash, id);
    GetAnswers(u, now, n.newHash, newId);
  }
}
