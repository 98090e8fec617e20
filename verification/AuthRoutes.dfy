/** The auth routes as sequences of repository calls over the concurrent session store.

    Every authenticated request first resolves its cookie token and slides the session; refresh
    then reads the session again and rotates it; logout reads it again, whatever comes of that, and
    revokes it. Any number of requests run at once, between them the database events of others. */
module AuthRoutes {
  import opened SessionTable
  import opened SessionProtocol
  import opened SessionSafety
  import opened SessionTouches

  type Token = string
  type Rid = nat

  datatype Kind = Plain | Refresh | Logout

  /** The repository event a running request makes next. */
  datatype Point = AuthGet | AuthTouch | AuthSlide | HandlerGet | HandlerAct | HandlerCommit

  datatype Request =
    | Running(kind: Kind, token: Token, at: Point)
    | Finished(kind: Kind, token: Token, ok: bool)

  datatype World = World(db: State, reqs: map<Rid, Request>)

  datatype Move =
    | Arrive(rid: Rid, kind: Kind, token: Token)
    | Act(rid: Rid, e: Event)
    | Drop(rid: Rid)          // fails outside the database: provider error, client gone
    | Elsewhere(e: Event)     // of a login, a bulk revocation or the retention purge

  const START := World(EMPTY, map[])

  // ---- Moves --------------------------------------------------------------------------------

  /** `e` is the event that request `rid` makes at its present point. */
  predicate Makes(hash: Token -> Digest, rid: Rid, q: Request, e: Event)
    requires q.Running?
  {
    match q.at
    case AuthGet => e.GetSession? && e.h == hash(q.token)
    case AuthTouch => e.TouchSelect? && e.pid == rid && e.h == hash(q.token)
    case AuthSlide => (e.TouchUpdate? || e.Abort?) && e.pid == rid
    case HandlerGet => e.GetSession? && e.h == hash(q.token)
    case HandlerAct =>
      if q.kind.Refresh? then e.RotateLock? && e.pid == rid && e.h == hash(q.token)
      else e.RevokeSession? && e.h == hash(q.token)
    case HandlerCommit => (e.RotateCommit? || e.Abort?) && e.pid == rid
  }

  /** What the request becomes on the reply to its event. */
  function Next(q: Request, r: Reply): Request
    requires q.Running?
  {
    var failed := Finished(q.kind, q.token, false);
    match q.at
    case AuthGet => if r.Resolved? then q.(at := AuthTouch) else failed
    case AuthTouch => if r.InProgress? then q.(at := AuthSlide) else failed
    case AuthSlide =>
      if !r.Slid? || r.idle.None? then failed
      else if q.kind.Plain? then Finished(q.kind, q.token, true)
      else q.(at := HandlerGet)
    case HandlerGet => if r.Resolved? || q.kind.Logout? then q.(at := HandlerAct) else failed
    case HandlerAct =>
      if q.kind.Refresh? then (if r.InProgress? then q.(at := HandlerCommit) else failed)
      else Finished(q.kind, q.token, true)
    case HandlerCommit => Finished(q.kind, q.token, r.Minted?)
  }

  predicate InTransaction(q: Request) { q.Running? && (q.at.AuthSlide? || q.at.HandlerCommit?) }

  /** The events that belong to no request; a bulk revocation has a process of its own. */
  predicate Outside(w: World, e: Event) {
    e.CreateSession? || e.Purge? || ((e.RevokeAllSelect? || e.RevokeAllCommit? || e.Abort?) && e.pid !in w.reqs)
  }

  ghost predicate Allowed(hash: Token -> Digest, w: World, m: Move) {
    match m
    case Arrive(rid, _, _) => rid !in w.reqs && rid !in w.db.txns
    case Act(rid, e) =>
      && rid in w.reqs && w.reqs[rid].Running? && Makes(hash, rid, w.reqs[rid], e)
      && Enabled(w.db, e) && Fresh(w.db, e)
    case Drop(rid) => rid in w.reqs && w.reqs[rid].Running? && !InTransaction(w.reqs[rid])
    case Elsewhere(e) => Outside(w, e) && Enabled(w.db, e) && Fresh(w.db, e)
  }

  ghost function Moved(hash: Token -> Digest, w: World, m: Move): World
    requires Allowed(hash, w, m)
  {
    match m
    case Arrive(rid, kind, token) => w.(reqs := w.reqs[rid := Running(kind, token, AuthGet)])
    case Act(rid, e) => World(Step(w.db, e), w.reqs[rid := Next(w.reqs[rid], ReplyTo(w.db, e))])
    case Drop(rid) => w.(reqs := w.reqs[rid := Finished(w.reqs[rid].kind, w.reqs[rid].token, false)])
    case Elsewhere(e) => w.(db := Step(w.db, e))
  }

  ghost predicate Plays(hash: Token -> Digest, w: World, ms: seq<Move>)
    decreases |ms|
  {
    ms == [] || (Allowed(hash, w, ms[0]) && Plays(hash, Moved(hash, w, ms[0]), ms[1..]))
  }

  ghost function End(hash: Token -> Digest, w: World, ms: seq<Move>): World
    requires Plays(hash, w, ms)
    decreases |ms|
  {
    if ms == [] then w else End(hash, Moved(hash, w, ms[0]), ms[1..])
  }

  // ---- The invariant --------------------------------------------------------------------------

  predicate Succeeded(w: World, rid: Rid, kind: Kind, token: Token) {
    rid in w.reqs && w.reqs[rid] == Finished(kind, token, true)
  }

  predicate Committing(w: World, rid: Rid, token: Token) {
    rid in w.reqs && w.reqs[rid].Running? && w.reqs[rid].at.HandlerCommit? && w.reqs[rid].token == token
  }

  /** A request about to commit holds the lock on the row of its own token. */
  ghost predicate CommitsOwnToken(hash: Token -> Digest, w: World) {
    && (forall rid, token :: Committing(w, rid, token) ==>
         rid in w.db.txns && w.db.txns[rid].Rotating? && w.db.txns[rid].read.tokenHash == hash(token))
    && (forall p :: p in w.db.txns && p in w.reqs ==> InTransaction(w.reqs[p]))
    && (forall rid :: rid in w.reqs && w.reqs[rid].Running? && w.reqs[rid].at.HandlerCommit? ==>
         w.reqs[rid].kind.Refresh?)
  }

  ghost predicate TokensSpent(hash: Token -> Digest, w: World) {
    && (forall rid, token :: Succeeded(w, rid, Refresh, token) ==> Spent(w.db, hash(token)))
    && (forall rid, token :: Succeeded(w, rid, Logout, token) ==> Spent(w.db, hash(token)))
    && (forall a, b, token :: Succeeded(w, a, Refresh, token) && Succeeded(w, b, Refresh, token) ==> a == b)
  }

  ghost predicate WorldInv(hash: Token -> Digest, w: World) {
    Inv(w.db) && CommitsOwnToken(hash, w) && TokensSpent(hash, w)
  }

  lemma RevokeSpends(s: State, now: Time, h: Digest)
    requires Inv(s) && Enabled(s, RevokeSession(now, h))
    ensures Spent(Step(s, RevokeSession(now, h)), h)
  {
    var t := Step(s, RevokeSession(now, h));
    forall id | Live(t.rows, id)
      ensures !HasHash(t.rows, id, h)
    {
      if HasHash(t.rows, id, h) {
        FindUnique(s.rows, id);
      }
    }
  }

  /** Transactions of others are not touched by an event of `pid`. */
  lemma OthersKeepTxns(s: State, e: Event, p: Pid)
    requires Enabled(s, e)
    requires (e.TouchSelect? ==> p != e.pid) && (e.TouchUpdate? ==> p != e.pid) && (e.RotateLock? ==> p != e.pid)
    requires (e.RotateCommit? ==> p != e.pid) && (e.Abort? ==> p != e.pid)
    requires (e.RevokeAllSelect? ==> p != e.pid) && (e.RevokeAllCommit? ==> p != e.pid)
    ensures p in s.txns <==> p in Step(s, e).txns
    ensures p in s.txns ==> Step(s, e).txns[p] == s.txns[p]
  {
  }

  lemma ActKeepsOthers(hash: Token -> Digest, w: World, rid: Rid, e: Event, p: Pid)
    requires Allowed(hash, w, Act(rid, e)) && p != rid
    ensures var u := Moved(hash, w, Act(rid, e));
            && (p in w.db.txns <==> p in u.db.txns) && (p in w.db.txns ==> u.db.txns[p] == w.db.txns[p])
            && (p in w.reqs <==> p in u.reqs) && (p in w.reqs ==> u.reqs[p] == w.reqs[p])
  {
    OthersKeepTxns(w.db, e, p);
  }

  /** The request that moves: in a transaction exactly while it waits for its second event, and about to
      commit only as a refresh that has locked the row of its own token. */
  lemma ActKeepsOwn(hash: Token -> Digest, w: World, rid: Rid, e: Event)
    requires Inv(w.db) && CommitsOwnToken(hash, w) && Allowed(hash, w, Act(rid, e))
    ensures var u := Moved(hash, w, Act(rid, e));
            && rid in u.reqs && (rid in u.db.txns ==> InTransaction(u.reqs[rid]))
            && (u.reqs[rid].Running? && u.reqs[rid].at.HandlerCommit? ==>
                 && u.reqs[rid].kind.Refresh? && rid in u.db.txns && u.db.txns[rid].Rotating?
                 && u.db.txns[rid].read.tokenHash == hash(u.reqs[rid].token))
  {
  }

  lemma ActKeepsCommits(hash: Token -> Digest, w: World, rid: Rid, e: Event)
    requires WorldInv(hash, w) && Allowed(hash, w, Act(rid, e))
    ensures CommitsOwnToken(hash, Moved(hash, w, Act(rid, e)))
  {
    var u := Moved(hash, w, Act(rid, e));
    ActKeepsOwn(hash, w, rid, e);
    forall p | p != rid
      ensures p in w.db.txns <==> p in u.db.txns
      ensures p in w.db.txns ==> u.db.txns[p] == w.db.txns[p]
      ensures p in w.reqs <==> p in u.reqs
      ensures p in w.reqs ==> u.reqs[p] == w.reqs[p]
    {
      ActKeepsOthers(hash, w, rid, e, p);
    }
    forall p, token | Committing(u, p, token)
      ensures p in u.db.txns && u.db.txns[p].Rotating? && u.db.txns[p].read.tokenHash == hash(token)
    {
      if p != rid {
        assert Committing(w, p, token);
      }
    }
  }

  /** A request succeeds with a refresh only on an unspent token, and success spends it. */
  lemma SuccessSpends(hash: Token -> Digest, w: World, rid: Rid, e: Event)
    requires WorldInv(hash, w) && Allowed(hash, w, Act(rid, e)) && !w.reqs[rid].kind.Plain?
    requires Next(w.reqs[rid], ReplyTo(w.db, e)) == Finished(w.reqs[rid].kind, w.reqs[rid].token, true)
    ensures Spent(Step(w.db, e), hash(w.reqs[rid].token))
    ensures w.reqs[rid].kind.Refresh? ==> !Spent(w.db, hash(w.reqs[rid].token))
  {
    var q := w.reqs[rid];
    var h := hash(q.token);
    if q.kind.Refresh? {
      assert Committing(w, rid, q.token);
      if Spent(w.db, h) {
        SpentTokenIsRefused(w.db, e, h);
      }
      WinSpends(w.db, e, h);
    } else {
      RevokeSpends(w.db, e.now, h);
    }
  }

  ghost predicate SpentStays(s: State, t: State) { forall h :: Spent(s, h) ==> Spent(t, h) }

  lemma StepKeepsAllSpent(s: State, e: Event)
    requires Inv(s) && Enabled(s, e) && Fresh(s, e)
    ensures SpentStays(s, Step(s, e))
  {
    forall h | Spent(s, h)
      ensures Spent(Step(s, e), h)
    {
      StepKeepsSpent(s, e, h);
    }
  }

  /** A move that finishes no refresh or logout keeps the used tokens spent; one that does has to
      show it for its own token. */
  lemma TokensStaySpent(hash: Token -> Digest, w: World, u: World, rid: Rid)
    requires TokensSpent(hash, w) && SpentStays(w.db, u.db)
    requires forall a, kind, token :: Succeeded(u, a, kind, token) ==> Succeeded(w, a, kind, token) || a == rid
    requires forall kind: Kind, token ::
               Succeeded(u, rid, kind, token) && !kind.Plain? && !Succeeded(w, rid, kind, token) ==>
               Spent(u.db, hash(token)) && (kind.Refresh? ==> !Spent(w.db, hash(token)))
    ensures TokensSpent(hash, u)
  {
  }

  lemma ActKeepsTokensSpent(hash: Token -> Digest, w: World, rid: Rid, e: Event)
    requires WorldInv(hash, w) && Allowed(hash, w, Act(rid, e))
    ensures TokensSpent(hash, Moved(hash, w, Act(rid, e)))
  {
    var u := Moved(hash, w, Act(rid, e));
    StepKeepsAllSpent(w.db, e);
    if u.reqs[rid].Finished? && u.reqs[rid].ok && !u.reqs[rid].kind.Plain? {
      SuccessSpends(hash, w, rid, e);
    }
    TokensStaySpent(hash, w, u, rid);
  }

  lemma ElsewhereKeepsInv(hash: Token -> Digest, w: World, e: Event)
    requires WorldInv(hash, w) && Allowed(hash, w, Elsewhere(e))
    ensures WorldInv(hash, Moved(hash, w, Elsewhere(e)))
  {
    var u := Moved(hash, w, Elsewhere(e));
    StepKeepsInv(w.db, e);
    StepKeepsAllSpent(w.db, e);
    assert forall a, kind, token :: Succeeded(u, a, kind, token) ==> Succeeded(w, a, kind, token);
    TokensStaySpent(hash, w, u, 0);
    forall p | p in w.reqs
      ensures p in w.db.txns <==> p in u.db.txns
      ensures p in w.db.txns ==> u.db.txns[p] == w.db.txns[p]
    {
      OthersKeepTxns(w.db, e, p);
    }
    assert forall a, token :: Committing(u, a, token) ==> Committing(w, a, token);
  }

  lemma QuietMoveKeepsInv(hash: Token -> Digest, w: World, m: Move)
    requires WorldInv(hash, w) && Allowed(hash, w, m) && (m.Arrive? || m.Drop?)
    ensures WorldInv(hash, Moved(hash, w, m))
  {
    var u := Moved(hash, w, m);
    assert forall a, kind, token :: Succeeded(u, a, kind, token) ==> Succeeded(w, a, kind, token);
    assert forall a, token :: Committing(u, a, token) ==> Committing(w, a, token);
  }

  lemma MoveKeepsInv(hash: Token -> Digest, w: World, m: Move)
    requires WorldInv(hash, w) && Allowed(hash, w, m)
    ensures WorldInv(hash, Moved(hash, w, m))
  {
    match m
    case Act(rid, e) =>
      StepKeepsInv(w.db, e);
      ActKeepsCommits(hash, w, rid, e);
      ActKeepsTokensSpent(hash, w, rid, e);
    case Elsewhere(e) => ElsewhereKeepsInv(hash, w, e);
    case _ => QuietMoveKeepsInv(hash, w, m);
  }

  lemma {:induction false} PlayKeepsInv(hash: Token -> Digest, w: World, ms: seq<Move>)
    requires WorldInv(hash, w) && Plays(hash, w, ms)
    ensures WorldInv(hash, End(hash, w, ms))
    decreases |ms|
  {
    if ms != [] {
      MoveKeepsInv(hash, w, ms[0]);
      PlayKeepsInv(hash, Moved(hash, w, ms[0]), ms[1..]);
    }
  }

  // ---- The theorems -------------------------------------------------------------------------

  /** However requests interleave, at most one refresh of a given cookie token succeeds. */
  lemma OneRefreshPerToken(hash: Token -> Digest, ms: seq<Move>, a: Rid, b: Rid, token: Token)
    requires Plays(hash, START, ms)
    requires Succeeded(End(hash, START, ms), a, Refresh, token) && Succeeded(End(hash, START, ms), b, Refresh, token)
    ensures a == b
  {
    EmptyInv();
    PlayKeepsInv(hash, START, ms);
  }

  /** A request that arrives with a spent token is refused at the first repository call it makes. */
  ghost predicate TurnedAway(hash: Token -> Digest, w: World, rid: Rid, token: Token) {
    && Spent(w.db, hash(token)) && rid in w.reqs && w.reqs[rid].token == token
    && (w.reqs[rid].Running? ==> w.reqs[rid].at.AuthGet?) && (w.reqs[rid].Finished? ==> !w.reqs[rid].ok)
  }

  lemma MoveKeepsTurnedAway(hash: Token -> Digest, w: World, m: Move, rid: Rid, token: Token)
    requires WorldInv(hash, w) && Allowed(hash, w, m) && TurnedAway(hash, w, rid, token)
    ensures TurnedAway(hash, Moved(hash, w, m), rid, token)
  {
    if m.Act? || m.Elsewhere? {
      StepKeepsSpent(w.db, m.e, hash(token));
      SpentTokenIsRefused(w.db, m.e, hash(token));
    }
  }

  lemma {:induction false} PlayKeepsTurnedAway(hash: Token -> Digest, w: World, ms: seq<Move>, rid: Rid, token: Token)
    requires WorldInv(hash, w) && Plays(hash, w, ms) && TurnedAway(hash, w, rid, token)
    ensures TurnedAway(hash, End(hash, w, ms), rid, token)
    decreases |ms|
  {
    if ms != [] {
      MoveKeepsInv(hash, w, ms[0]);
      MoveKeepsTurnedAway(hash, w, ms[0], rid, token);
      PlayKeepsTurnedAway(hash, Moved(hash, w, ms[0]), ms[1..], rid, token);
    }
  }

  lemma {:induction false} PlayKeepsSpent(hash: Token -> Digest, w: World, ms: seq<Move>, h: Digest)
    requires WorldInv(hash, w) && Plays(hash, w, ms) && Spent(w.db, h)
    ensures Spent(End(hash, w, ms).db, h)
    decreases |ms|
  {
    if ms != [] {
      if ms[0].Act? || ms[0].Elsewhere? {
        StepKeepsSpent(w.db, ms[0].e, h);
      }
      MoveKeepsInv(hash, w, ms[0]);
      PlayKeepsSpent(hash, Moved(hash, w, ms[0]), ms[1..], h);
    }
  }

  /** Once a logout has returned, no read of its token resolves a session, and no touch or rotation
      of it gets past its checks, whatever has happened since. */
  lemma NothingResolvesAfterLogout(hash: Token -> Digest, before: seq<Move>, after: seq<Move>,
                                   out: Rid, token: Token, e: Event)
    requires Plays(hash, START, before) && Succeeded(End(hash, START, before), out, Logout, token)
    requires Plays(hash, End(hash, START, before), after)
    requires Enabled(End(hash, End(hash, START, before), after).db, e)
    ensures var s := End(hash, End(hash, START, before), after).db;
            && (e.GetSession? && e.h == hash(token) ==> !ReplyTo(s, e).Resolved?)
            && (e.TouchSelect? && e.h == hash(token) ==> !ReplyTo(s, e).InProgress?)
            && (e.RotateCommit? && s.txns[e.pid].read.tokenHash == hash(token) ==> !ReplyTo(s, e).Minted?)
  {
    var w := End(hash, START, before);
    EmptyInv();
    PlayKeepsInv(hash, START, before);
    PlayKeepsSpent(hash, w, after, hash(token));
    PlayKeepsInv(hash, w, after);
    SpentTokenIsRefused(End(hash, w, after).db, e, hash(token));
  }

  /** A request that arrives with a token already logged out, or already refreshed away, never
      succeeds. That includes a second logout: the route authenticates before it revokes. */
  lemma UsedTokenNeverSucceedsAgain(hash: Token -> Digest, before: seq<Move>, after: seq<Move>,
                                    first: Rid, kind: Kind, token: Token, rid: Rid, again: Kind)
    requires Plays(hash, START, before) && !kind.Plain? && Succeeded(End(hash, START, before), first, kind, token)
    requires rid !in End(hash, START, before).reqs
    requires Plays(hash, End(hash, START, before), [Arrive(rid, again, token)] + after)
    ensures var w := End(hash, End(hash, START, before), [Arrive(rid, again, token)] + after);
            rid in w.reqs && w.reqs[rid].token == token && (w.reqs[rid].Finished? ==> !w.reqs[rid].ok)
  {
    var w := End(hash, START, before);
    var ms := [Arrive(rid, again, token)] + after;
    EmptyInv();
    PlayKeepsInv(hash, START, before);
    MoveKeepsInv(hash, w, ms[0]);
    assert ms[1..] == after;
    PlayKeepsTurnedAway(hash, Moved(hash, w, ms[0]), after, rid, token);
  }

  // ---- When a logout succeeds -----------------------------------------------------------------------

  /** The moves of a logout request that no other request comes between: it authenticates by a read at
      `t1` and a touch at `t2`, then reads and revokes. */
  function LogoutMoves(hash: Token -> Digest, rid: Rid, token: Token,
                       t1: Time, t2: Time, ttl: int, t3: Time, t4: Time): seq<Move>
  {
    var h := hash(token);
    [Arrive(rid, Logout, token), Act(rid, GetSession(t1, h)), Act(rid, TouchSelect(rid, t2, h, ttl)),
     Act(rid, TouchUpdate(rid)), Act(rid, GetSession(t3, h)), Act(rid, RevokeSession(t4, h))]
  }

  ghost predicate EndsWell(hash: Token -> Digest, w: World, ms: seq<Move>, rid: Rid, token: Token) {
    Plays(hash, w, ms) && Succeeded(End(hash, w, ms), rid, Logout, token)
  }

  ghost predicate EndsRefused(hash: Token -> Digest, w: World, ms: seq<Move>, rid: Rid, token: Token) {
    Plays(hash, w, ms) && rid in End(hash, w, ms).reqs && End(hash, w, ms).reqs[rid] == Finished(Logout, token, false)
  }

  lemma FirstMove(hash: Token -> Digest, w: World, ms: seq<Move>, rid: Rid, token: Token)
    requires ms != []
    ensures EndsWell(hash, w, ms, rid, token) <==>
              Allowed(hash, w, ms[0]) && EndsWell(hash, Moved(hash, w, ms[0]), ms[1..], rid, token)
    ensures EndsRefused(hash, w, ms, rid, token) <==>
              Allowed(hash, w, ms[0]) && EndsRefused(hash, Moved(hash, w, ms[0]), ms[1..], rid, token)
  {
  }

  ghost predicate At(w: World, rid: Rid, token: Token, at: Point) {
    rid in w.reqs && w.reqs[rid] == Running(Logout, token, at)
  }

  /** The last two calls: whatever the read gives, the revocation succeeds. */
  lemma HandlerSucceeds(hash: Token -> Digest, w: World, rid: Rid, token: Token, ms: seq<Move>, t3: Time, t4: Time)
    requires w.db.txns == map[] && At(w, rid, token, HandlerGet)
    requires ms == [Act(rid, GetSession(t3, hash(token))), Act(rid, RevokeSession(t4, hash(token)))]
    ensures EndsWell(hash, w, ms, rid, token)
  {
    var u := Moved(hash, w, ms[0]);
    assert At(u, rid, token, HandlerAct) && u.db.txns == map[];
    assert ms[1..][1..] == [] && ms[1..][0] == Act(rid, RevokeSession(t4, hash(token)));
    FirstMove(hash, w, ms, rid, token);
    FirstMove(hash, u, ms[1..], rid, token);
  }

  /** Once the touch has passed its checks, nothing stops the request. */
  lemma SlideSucceeds(hash: Token -> Digest, w: World, rid: Rid, token: Token, ms: seq<Move>, t3: Time, t4: Time)
    requires w.db.txns.Keys == {rid} && w.db.txns[rid].Touching? && w.db.txns[rid].id in w.db.rows
    requires At(w, rid, token, AuthSlide)
    requires ms == [Act(rid, TouchUpdate(rid)), Act(rid, GetSession(t3, hash(token))),
                    Act(rid, RevokeSession(t4, hash(token)))]
    ensures EndsWell(hash, w, ms, rid, token)
  {
    assert Allowed(hash, w, ms[0]);
    var u := Moved(hash, w, ms[0]);
    assert u.db.txns == map[] && At(u, rid, token, HandlerGet);
    HandlerSucceeds(hash, u, rid, token, ms[1..], t3, t4);
    FirstMove(hash, w, ms, rid, token);
  }

  /** A row carries the token's hash and is active. */
  ghost predicate Resolvable(t: Table, h: Digest, now: Time) { exists id :: HasHash(t, id, h) && Active(t[id], now) }

  lemma RepliesAsResolvable(s: State, h: Digest, now: Time, pid: Pid, ttl: int)
    requires UniqueHashes(s.rows) && pid !in s.txns
    ensures ReplyTo(s, GetSession(now, h)).Resolved? <==> Resolvable(s.rows, h, now)
    ensures ReplyTo(s, TouchSelect(pid, now, h, ttl)).InProgress? <==> Resolvable(s.rows, h, now)
  {
    var found := Find(s.rows, h);
    if found.Some? {
      assert forall id :: HasHash(s.rows, id, h) ==> id == found.value;
    }
  }

  lemma TouchDecides(hash: Token -> Digest, w: World, rid: Rid, token: Token, ms: seq<Move>,
                     t2: Time, ttl: int, t3: Time, t4: Time)
    requires UniqueHashes(w.db.rows) && w.db.txns == map[] && At(w, rid, token, AuthTouch)
    requires ms == [Act(rid, TouchSelect(rid, t2, hash(token), ttl)), Act(rid, TouchUpdate(rid)),
                    Act(rid, GetSession(t3, hash(token))), Act(rid, RevokeSession(t4, hash(token)))]
    ensures EndsWell(hash, w, ms, rid, token) <==> Resolvable(w.db.rows, hash(token), t2)
    ensures !Resolvable(w.db.rows, hash(token), t2) ==> EndsRefused(hash, w, [ms[0]], rid, token)
  {
    var u := Moved(hash, w, ms[0]);
    RepliesAsResolvable(w.db, hash(token), t2, rid, ttl);
    FirstMove(hash, w, ms, rid, token);
    if Resolvable(w.db.rows, hash(token), t2) {
      SlideSucceeds(hash, u, rid, token, ms[1..], t3, t4);
    } else {
      assert u.reqs[rid] == Finished(Logout, token, false);
      FirstMove(hash, w, [ms[0]], rid, token);
      FirstMove(hash, u, ms[1..], rid, token);
    }
  }

  lemma ReadAndTouchDecide(hash: Token -> Digest, w: World, rid: Rid, token: Token, ms: seq<Move>,
                           t1: Time, t2: Time, ttl: int, t3: Time, t4: Time)
    requires UniqueHashes(w.db.rows) && w.db.txns == map[] && At(w, rid, token, AuthGet)
    requires ms == LogoutMoves(hash, rid, token, t1, t2, ttl, t3, t4)[1..]
    ensures EndsWell(hash, w, ms, rid, token)
            <==> Resolvable(w.db.rows, hash(token), t1) && Resolvable(w.db.rows, hash(token), t2)
    ensures !Resolvable(w.db.rows, hash(token), t1) ==> EndsRefused(hash, w, ms[..1], rid, token)
    ensures Resolvable(w.db.rows, hash(token), t1) && !Resolvable(w.db.rows, hash(token), t2) ==>
              EndsRefused(hash, w, ms[..2], rid, token)
  {
    var u := Moved(hash, w, ms[0]);
    RepliesAsResolvable(w.db, hash(token), t1, rid, ttl);
    FirstMove(hash, w, ms, rid, token);
    FirstMove(hash, w, ms[..1], rid, token);
    FirstMove(hash, w, ms[..2], rid, token);
    assert ms[..1][1..] == [] && ms[..2][1..] == [ms[1]];
    if Resolvable(w.db.rows, hash(token), t1) {
      TouchDecides(hash, u, rid, token, ms[1..], t2, ttl, t3, t4);
    } else {
      assert u.reqs[rid] == Finished(Logout, token, false);
      FirstMove(hash, u, ms[1..], rid, token);
    }
  }

  /** A logout that no other request comes between succeeds exactly when its token resolves both when it
      is read and when it is touched. So it fails for a token that is unknown, purged, revoked in any
      way, refreshed away or expired; then it is refused at the read, or else at the touch. */
  lemma LogoutSucceedsIff(hash: Token -> Digest, w: World, rid: Rid, token: Token,
                          t1: Time, t2: Time, ttl: int, t3: Time, t4: Time)
    requires WorldInv(hash, w) && w.db.txns == map[] && rid !in w.reqs
    ensures var ms, h, t := LogoutMoves(hash, rid, token, t1, t2, ttl, t3, t4), hash(token), w.db.rows;
            && (EndsWell(hash, w, ms, rid, token) <==> Resolvable(t, h, t1) && Resolvable(t, h, t2))
            && (!Resolvable(t, h, t1) ==> EndsRefused(hash, w, ms[..2], rid, token))
            && (Resolvable(t, h, t1) && !Resolvable(t, h, t2) ==> EndsRefused(hash, w, ms[..3], rid, token))
  {
    var ms := LogoutMoves(hash, rid, token, t1, t2, ttl, t3, t4);
    FirstMove(hash, w, ms, rid, token);
    FirstMove(hash, w, ms[..2], rid, token);
    FirstMove(hash, w, ms[..3], rid, token);
    assert ms[..2][1..] == ms[1..][..1] && ms[..3][1..] == ms[1..][..2];
    ReadAndTouchDecide(hash, Moved(hash, w, ms[0]), rid, token, ms[1..], t1, t2, ttl, t3, t4);
  }

  lemma ThreeMoves(hash: Token -> Digest, w: World, a: Move, b: Move, c: Move)
    requires Allowed(hash, w, a) && Allowed(hash, Moved(hash, w, a), b)
    requires Allowed(hash, Moved(hash, Moved(hash, w, a), b), c)
    ensures Plays(hash, w, [a, b, c]) && End(hash, w, [a, b, c]) == Moved(hash, Moved(hash, Moved(hash, w, a), b), c)
  {
    assert [a, b, c][1..] == [b, c] && [b, c][1..] == [c] && [c][1..] == [];
    var u := Moved(hash, w, a);
    var v := Moved(hash, u, b);
    assert Plays(hash, v, [c]) && End(hash, v, [c]) == Moved(hash, v, c);
    assert Plays(hash, u, [b, c]) && End(hash, u, [b, c]) == Moved(hash, v, c);
  }

  /** The read that authenticates a request of a session that has idled out. */
  lemma IdleReadIsRefused(hash: Token -> Digest, w: World, token: Token, now: Time)
    requires hash(token) == SOMEONE.tokenHash && w.db.rows == map[0 := SOMEONES_ROW] && now >= SOMEONES_ROW.idle
    requires At(w, 0, token, AuthGet)
    ensures Allowed(hash, w, Act(0, GetSession(now, hash(token))))
    ensures Moved(hash, w, Act(0, GetSession(now, hash(token)))).reqs[0] == Finished(Logout, token, false)
  {
    assert forall id, h :: HasHash(w.db.rows, id, h) ==> id == 0;
  }

  /** A failing run: a login that has idled out cannot be logged out; its session stays un-revoked. */
  lemma LogoutOfIdleSessionIsRefused(hash: Token -> Digest, token: Token) returns (ms: seq<Move>)
    requires hash(token) == SOMEONE.tokenHash
    ensures EndsRefused(hash, START, ms, 0, token) && Live(End(hash, START, ms).db.rows, 0)
  {
    var login, arrive := Elsewhere(CreateSession(0, 0, SOMEONE, true, true)), Arrive(0, Logout, token);
    var read := Act(0, GetSession(20, hash(token)));
    var s := SomeoneLogsIn();
    var w := World(s, map[]);
    assert Moved(hash, START, login) == w;
    var u := Moved(hash, w, arrive);
    IdleReadIsRefused(hash, u, token, 20);
    ThreeMoves(hash, START, login, arrive, read);
    ms := [login, arrive, read];
  }

  // ---- What becomes of a request, in any play --------------------------------------------------------------

  /** The move by which the running request fails. Authentication: its read or its touch finds nothing that
      resolves, or its row is purged before the UPDATE of the touch. Refresh: its own read finds nothing
      that resolves, its lock finds no row, or the row it locked was not active at its start time. Any:
      it is dropped or aborted. A logout cannot fail once authenticated. */
  ghost predicate FailsBy(hash: Token -> Digest, w: World, m: Move, rid: Rid)
    requires Allowed(hash, w, m) && rid in w.reqs && w.reqs[rid].Running?
  {
    var q := w.reqs[rid];
    (m.Drop? && m.rid == rid) ||
    (m.Act? && m.rid == rid &&
     match q.at
     case AuthGet => !Resolvable(w.db.rows, hash(q.token), m.e.now)
     case AuthTouch => !Resolvable(w.db.rows, hash(q.token), m.e.now)
     case AuthSlide => m.e.Abort? || w.db.txns[rid].id !in w.db.rows
     case HandlerGet => !q.kind.Logout? && !Resolvable(w.db.rows, hash(q.token), m.e.now)
     case HandlerAct => q.kind.Refresh? && !HashInUse(w.db.rows, hash(q.token))
     case HandlerCommit => m.e.Abort? || !Active(w.db.txns[rid].read, w.db.txns[rid].now))
  }

  /** The move by which it succeeds: a plain request when its touch slides, a refresh when its rotation
      commits on a row active at its start time, a logout when it has revoked. */
  ghost predicate SucceedsBy(hash: Token -> Digest, w: World, m: Move, rid: Rid)
    requires Allowed(hash, w, m) && rid in w.reqs && w.reqs[rid].Running?
  {
    var q := w.reqs[rid];
    m.Act? && m.rid == rid &&
    match q.at
    case AuthSlide => q.kind.Plain? && m.e.TouchUpdate? && w.db.txns[rid].id in w.db.rows
    case HandlerAct => !q.kind.Refresh?
    case HandlerCommit => m.e.RotateCommit? && Active(w.db.txns[rid].read, w.db.txns[rid].now)
    case _ => false
  }

  predicate IsRunning(w: World, rid: Rid, kind: Kind, token: Token) {
    rid in w.reqs && w.reqs[rid].Running? && w.reqs[rid].kind == kind && w.reqs[rid].token == token
  }

  predicate HasFailed(w: World, rid: Rid, kind: Kind, token: Token) {
    rid in w.reqs && w.reqs[rid] == Finished(kind, token, false)
  }

  ghost predicate Decides(hash: Token -> Digest, w: World, m: Move, rid: Rid, kind: Kind, token: Token)
    requires Allowed(hash, w, m) && rid in w.reqs && w.reqs[rid].Running?
  {
    var u := Moved(hash, w, m);
    && (HasFailed(u, rid, kind, token) <==> FailsBy(hash, w, m, rid))
    && (Succeeded(u, rid, kind, token) <==> SucceedsBy(hash, w, m, rid))
    && (IsRunning(u, rid, kind, token) || HasFailed(u, rid, kind, token) || Succeeded(u, rid, kind, token))
  }

  lemma ReadDecides(hash: Token -> Digest, w: World, m: Move, rid: Rid, kind: Kind, token: Token)
    requires WorldInv(hash, w) && Allowed(hash, w, m) && IsRunning(w, rid, kind, token) && m.Act? && m.rid == rid
    requires w.reqs[rid].at.AuthGet? || w.reqs[rid].at.HandlerGet?
    ensures Decides(hash, w, m, rid, kind, token)
  {
    RepliesToReadAsResolvable(w.db, hash(token), m.e.now);
  }

  lemma AuthTouchDecides(hash: Token -> Digest, w: World, m: Move, rid: Rid, kind: Kind, token: Token)
    requires WorldInv(hash, w) && Allowed(hash, w, m) && IsRunning(w, rid, kind, token) && m.Act? && m.rid == rid
    requires w.reqs[rid].at.AuthTouch?
    ensures Decides(hash, w, m, rid, kind, token)
  {
    RepliesAsResolvable(w.db, hash(token), m.e.now, rid, m.e.idleTtl);
  }

  lemma CommitDecides(hash: Token -> Digest, w: World, m: Move, rid: Rid, kind: Kind, token: Token)
    requires WorldInv(hash, w) && Allowed(hash, w, m) && IsRunning(w, rid, kind, token) && m.Act? && m.rid == rid
    requires w.reqs[rid].at.HandlerCommit?
    ensures Decides(hash, w, m, rid, kind, token)
  {
    if m.e.RotateCommit? {
      FreshHashIsUnused(w.db, m.e.rotation.newHash);
    }
  }

  /** The remaining steps of a request, and the moves of others. */
  lemma OtherDecides(hash: Token -> Digest, w: World, m: Move, rid: Rid, kind: Kind, token: Token)
    requires Allowed(hash, w, m) && IsRunning(w, rid, kind, token)
    requires m.Act? && m.rid == rid ==> w.reqs[rid].at.AuthSlide? || w.reqs[rid].at.HandlerAct?
    ensures Decides(hash, w, m, rid, kind, token)
  {
  }

  lemma MoveDecides(hash: Token -> Digest, w: World, m: Move, rid: Rid, kind: Kind, token: Token)
    requires WorldInv(hash, w) && Allowed(hash, w, m) && IsRunning(w, rid, kind, token)
    ensures Decides(hash, w, m, rid, kind, token)
  {
    if m.Act? && m.rid == rid {
      match w.reqs[rid].at
      case AuthGet => ReadDecides(hash, w, m, rid, kind, token);
      case HandlerGet => ReadDecides(hash, w, m, rid, kind, token);
      case AuthTouch => AuthTouchDecides(hash, w, m, rid, kind, token);
      case HandlerCommit => CommitDecides(hash, w, m, rid, kind, token);
      case _ => OtherDecides(hash, w, m, rid, kind, token);
    } else {
      OtherDecides(hash, w, m, rid, kind, token);
    }
  }

  lemma FreshHashIsUnused(s: State, h: Digest)
    requires History(s) && h !in s.seen
    ensures !HashInUse(s.rows, h)
  {
  }

  lemma RepliesToReadAsResolvable(s: State, h: Digest, now: Time)
    requires UniqueHashes(s.rows)
    ensures ReplyTo(s, GetSession(now, h)).Resolved? <==> Resolvable(s.rows, h, now)
  {
    var found := Find(s.rows, h);
    if found.Some? {
      assert forall id :: HasHash(s.rows, id, h) ==> id == found.value;
    }
  }

  /** Some move of the play fails the request. */
  ghost predicate FailsIn(hash: Token -> Digest, w: World, ms: seq<Move>, rid: Rid)
    requires Plays(hash, w, ms)
    decreases |ms|
  {
    ms != [] &&
    ((rid in w.reqs && w.reqs[rid].Running? && FailsBy(hash, w, ms[0], rid))
     || FailsIn(hash, Moved(hash, w, ms[0]), ms[1..], rid))
  }

  /** Some move of the play makes it succeed. */
  ghost predicate SucceedsIn(hash: Token -> Digest, w: World, ms: seq<Move>, rid: Rid)
    requires Plays(hash, w, ms)
    decreases |ms|
  {
    ms != [] &&
    ((rid in w.reqs && w.reqs[rid].Running? && SucceedsBy(hash, w, ms[0], rid))
     || SucceedsIn(hash, Moved(hash, w, ms[0]), ms[1..], rid))
  }

  lemma {:induction false} FinishedStays(hash: Token -> Digest, w: World, ms: seq<Move>, rid: Rid)
    requires Plays(hash, w, ms) && rid in w.reqs && w.reqs[rid].Finished?
    ensures rid in End(hash, w, ms).reqs && End(hash, w, ms).reqs[rid] == w.reqs[rid]
    ensures !FailsIn(hash, w, ms, rid) && !SucceedsIn(hash, w, ms, rid)
    decreases |ms|
  {
    if ms != [] {
      FinishedStays(hash, Moved(hash, w, ms[0]), ms[1..], rid);
    }
  }

  /** In any play, whatever other requests, purges and revocations come between, a request of any kind has
      failed exactly when one of these things happened to it, and succeeded exactly when its last step
      was taken. */
  lemma {:induction false} RequestOutcomeIff(hash: Token -> Digest, w: World, ms: seq<Move>, rid: Rid,
                                             kind: Kind, token: Token)
    requires WorldInv(hash, w) && Plays(hash, w, ms) && IsRunning(w, rid, kind, token)
    ensures HasFailed(End(hash, w, ms), rid, kind, token) <==> FailsIn(hash, w, ms, rid)
    ensures Succeeded(End(hash, w, ms), rid, kind, token) <==> SucceedsIn(hash, w, ms, rid)
    decreases |ms|
  {
    if ms != [] {
      var u := Moved(hash, w, ms[0]);
      MoveKeepsInv(hash, w, ms[0]);
      MoveDecides(hash, w, ms[0], rid, kind, token);
      if IsRunning(u, rid, kind, token) {
        RequestOutcomeIff(hash, u, ms[1..], rid, kind, token);
      } else {
        FinishedStays(hash, u, ms[1..], rid);
      }
    }
  }
}
