/** What holds of every run of the session store: any interleaving of logins, reads, touches,
    rotations, revocations and purges, each with its own start time. */
module SessionSafety {
  import opened Wrappers
  import opened SessionTable
  import opened SessionProtocol

  // ---- Runs ---------------------------------------------------------------------------------

  ghost predicate Run(s: State, es: seq<Event>)
    decreases |es|
  {
    es == [] || (Enabled(s, es[0]) && Run(Step(s, es[0]), es[1..]))
  }

  ghost function After(s: State, es: seq<Event>): State
    requires Run(s, es)
    decreases |es|
  {
    if es == [] then s else After(Step(s, es[0]), es[1..])
  }

  /** Every token hash a login or a rotation brings has never been named before: tokens are random
      and unknown to everyone until they are handed out. */
  ghost predicate Fresh(s: State, e: Event) {
    match e
    case CreateSession(_, _, l, _, _) => l.tokenHash !in s.seen
    case RotateCommit(_, _, n) => n.newHash !in s.seen
    case _ => true
  }

  ghost predicate FreshRun(s: State, es: seq<Event>)
    requires Run(s, es)
    decreases |es|
  {
    es == [] || (Fresh(s, es[0]) && FreshRun(Step(s, es[0]), es[1..]))
  }

  lemma {:induction false} RunKeepsInv(s: State, es: seq<Event>)
    requires Inv(s) && Run(s, es)
    ensures Inv(After(s, es))
    decreases |es|
  {
    if es != [] {
      StepKeepsInv(s, es[0]);
      RunKeepsInv(Step(s, es[0]), es[1..]);
    }
  }

  lemma EmptyInv()
    ensures Inv(EMPTY)
  {
  }

  /** `s` is a state of some run from the empty table. */
  ghost predicate Reached(s: State) { exists es :: Run(EMPTY, es) && After(EMPTY, es) == s }

  lemma ReachedInv(s: State)
    requires Reached(s)
    ensures Inv(s)
  {
    var es :| Run(EMPTY, es) && After(EMPTY, es) == s;
    EmptyInv();
    RunKeepsInv(EMPTY, es);
  }

  // ---- What no event does ---------------------------------------------------------------------

  /** From `s` to `t` rows are added, kept or deleted for good, and the history only grows. */
  ghost predicate Advances(s: State, t: State) {
    && RowsKept(s.rows, t.rows)
    && (forall id :: id in s.origins && id !in s.rows ==> id !in t.rows)
    && (forall id :: id in s.origins ==> id in t.origins && t.origins[id] == s.origins[id])
    && s.seen <= t.seen && |s.origins| <= |t.origins|
  }

  lemma CreateAdvances(s: State, id: Uuid, now: Time, l: Login, tenantActive: bool, member: bool)
    requires Inv(s) && id !in s.origins
    ensures Advances(s, Created(s, id, now, l, tenantActive, member))
  {
  }

  lemma RotateCommitAdvances(s: State, pid: Pid, newId: Uuid, n: Rotation)
    requires Inv(s) && pid in s.txns && s.txns[pid].Rotating? && newId !in s.origins
    ensures Advances(s, RotateCommitted(s, pid, newId, n))
  {
    assert Holds(s.txns, pid, s.txns[pid].id);
  }

  lemma StepAdvances(s: State, e: Event)
    requires Inv(s) && Enabled(s, e)
    ensures Advances(s, Step(s, e))
  {
    match e
    case CreateSession(id, now, l, tenantActive, member) => CreateAdvances(s, id, now, l, tenantActive, member);
    case RotateCommit(pid, newId, n) => RotateCommitAdvances(s, pid, newId, n);
    case _ =>
  }

  lemma {:induction false} RunAdvances(s: State, es: seq<Event>)
    requires Inv(s) && Run(s, es)
    ensures Advances(s, After(s, es))
    decreases |es|
  {
    if es != [] {
      var t := Step(s, es[0]);
      StepAdvances(s, es[0]);
      StepKeepsInv(s, es[0]);
      RunAdvances(t, es[1..]);
      AdvancesTransitive(s, t, After(t, es[1..]));
    }
  }

  lemma AdvancesTransitive(s: State, t: State, u: State)
    requires History(s) && Advances(s, t) && Advances(t, u)
    ensures Advances(s, u)
  {
    forall id | id in s.rows && id in u.rows
      ensures RowKept(s.rows[id], u.rows[id])
    {
      assert id in s.origins && id in t.rows;
    }
  }

  /** `e` ends the transaction `pid`. */
  predicate Ends(e: Event, pid: Pid) {
    (e.TouchUpdate? || e.RotateCommit? || e.RevokeAllCommit? || e.Abort?) && e.pid == pid
  }

  predicate NoneEnds(es: seq<Event>, pid: Pid) { forall e :: e in es ==> !Ends(e, pid) }

  /** A transaction in progress is not changed by the events of others. */
  lemma {:induction false} TxnStays(s: State, es: seq<Event>, pid: Pid)
    requires Run(s, es) && pid in s.txns && NoneEnds(es, pid)
    ensures pid in After(s, es).txns && After(s, es).txns[pid] == s.txns[pid]
    decreases |es|
  {
    if es != [] {
      assert es[0] in es && forall e :: e in es[1..] ==> e in es;
      TxnStays(Step(s, es[0]), es[1..], pid);
    }
  }

  // ---- Lineages -----------------------------------------------------------------------------

  /** However logins, rotations, touches, revocations and purges interleave, a login never has two
      un-revoked sessions. */
  lemma AtMostOneLivePerLineage(s: State, a: Uuid, b: Uuid)
    requires Reached(s) && Live(s.rows, a) && Live(s.rows, b)
    ensures a in s.origins && b in s.origins
    ensures s.origins[a].lineage == s.origins[b].lineage ==> a == b
  {
    ReachedInv(s);
  }

  /** `ids` follows the rotation links: each row was rotated from the one before. */
  ghost predicate Chain(t: Table, ids: seq<Uuid>) {
    forall i :: 0 < i < |ids| ==> Link(t, ids[i-1], ids[i])
  }

  lemma {:induction false} ChainsClimb(s: State, ids: seq<Uuid>, i: nat, j: nat)
    requires History(s) && LinksPresent(s.rows) && GoodLinks(s) && Chain(s.rows, ids) && i < j < |ids|
    ensures ids[i] in s.rows && ids[j] in s.rows && s.origins[ids[i]].birth < s.origins[ids[j]].birth
    decreases j
  {
    assert Link(s.rows, ids[j-1], ids[j]);
    if i < j - 1 {
      ChainsClimb(s, ids, i, j - 1);
    }
  }

  /** In every reachable table the rotated_from links form disjoint simple paths: no row has two
      successors, and a row that was rotated from is present, revoked, and of the same user, tenant
      and absolute expiry as its successor. */
  lemma LinksFormDisjointPaths(s: State)
    requires Reached(s)
    ensures forall p, id :: Link(s.rows, p, id) ==>
              && p in s.rows && s.rows[p].revokedAt.Some?
              && s.rows[p].userId == s.rows[id].userId && s.rows[p].tenantId == s.rows[id].tenantId
              && s.rows[p].absolute == s.rows[id].absolute
    ensures forall p, a, b :: Link(s.rows, p, a) && Link(s.rows, p, b) ==> a == b
  {
    ReachedInv(s);
  }

  /** A chain of rotations never comes back to a row. */
  lemma ChainsNeverRepeat(s: State, ids: seq<Uuid>, i: nat, j: nat)
    requires Reached(s) && Chain(s.rows, ids) && i < j < |ids|
    ensures ids[i] != ids[j]
  {
    ReachedInv(s);
    ChainsClimb(s, ids, i, j);
  }

  // ---- Lifetimes ----------------------------------------------------------------------------

  /** Rows of one lineage have one login. */
  ghost predicate OneLogin(s: State, id: Uuid) {
    && id in s.origins && s.origins[id].lineage < |s.origins|
    && forall a :: a in s.origins && s.origins[a].lineage == s.origins[id].lineage ==>
         s.origins[a] == s.origins[id].(birth := s.origins[a].birth)
  }

  lemma StepKeepsOneLogin(s: State, e: Event, id: Uuid)
    requires Inv(s) && Enabled(s, e) && OneLogin(s, id)
    ensures OneLogin(Step(s, e), id)
  {
    StepAdvances(s, e);
  }

  lemma {:induction false} LineageSharesLogin(s: State, es: seq<Event>, id: Uuid)
    requires Inv(s) && Run(s, es) && OneLogin(s, id)
    ensures OneLogin(After(s, es), id) && id in After(s, es).origins && After(s, es).origins[id] == s.origins[id]
    decreases |es|
  {
    if es != [] {
      StepKeepsOneLogin(s, es[0], id);
      StepAdvances(s, es[0]);
      StepKeepsInv(s, es[0]);
      LineageSharesLogin(Step(s, es[0]), es[1..], id);
    }
  }

  lemma LoginStartsLineage(s: State, login: Event)
    requires Inv(s) && Enabled(s, login) && login.CreateSession? && ReplyTo(s, login).Minted?
    ensures OneLogin(Step(s, login), login.id)
    ensures Deadline(Step(s, login).origins[login.id]) == login.now + login.login.absoluteTtl
  {
  }

  /** What a login fixed stays fixed. Whatever happens after it, each remaining row of its lineage
      expires at the login time plus the absolute TTL, and never idles past that. */
  lemma AbsoluteExpiryNeverMoves(s: State, login: Event, es: seq<Event>, id: Uuid)
    requires Reached(s) && Enabled(s, login) && login.CreateSession? && ReplyTo(s, login).Minted?
    requires Run(Step(s, login), es)
    ensures var t := After(Step(s, login), es);
            && login.id in t.origins
            && (id in t.rows && id in t.origins && t.origins[id].lineage == t.origins[login.id].lineage ==>
                 && t.rows[id].absolute == login.now + login.login.absoluteTtl
                 && t.rows[id].idle <= t.rows[id].absolute)
  {
    ReachedInv(s);
    LoginStartsLineage(s, login);
    StepKeepsInv(s, login);
    LineageSharesLogin(Step(s, login), es, login.id);
    RunKeepsInv(Step(s, login), es);
  }

  /** The row a read, a touch or a rotation works on. */
  ghost function Target(s: State, e: Event): Option<Uuid> {
    match e
    case GetSession(_, h) => Find(s.rows, h)
    case TouchSelect(_, _, h, _) => Find(s.rows, h)
    case TouchUpdate(pid) => if pid in s.txns && s.txns[pid].Touching? then Some(s.txns[pid].id) else None
    case RotateCommit(pid, _, _) => if pid in s.txns && s.txns[pid].Rotating? then Some(s.txns[pid].id) else None
    case _ => None
  }

  /** The start time of the transaction an event belongs to. */
  ghost function StartOf(s: State, e: Event): Time
    requires Target(s, e).Some?
  {
    match e
    case GetSession(now, _) => now
    case TouchSelect(_, now, _, _) => now
    case TouchUpdate(pid) => s.txns[pid].now
    case RotateCommit(pid, _, _) => s.txns[pid].now
  }

  ghost predicate Succeeds(s: State, e: Event)
    requires Enabled(s, e)
  {
    ReplyTo(s, e).Resolved? || ReplyTo(s, e).InProgress? || ReplyTo(s, e).Slid? || ReplyTo(s, e).Minted?
  }

  /** No read, touch or rotation whose transaction starts at or after the deadline of the lineage
      succeeds, and none hands out an expiry past it. */
  lemma NothingOutlivesTheDeadline(s: State, e: Event)
    requires Reached(s) && Enabled(s, e) && Target(s, e).Some? && Succeeds(s, e)
    ensures var id := Target(s, e).value;
            && id in s.origins && StartOf(s, e) < Deadline(s.origins[id])
            && (ReplyTo(s, e).Slid? && ReplyTo(s, e).idle.Some? ==> ReplyTo(s, e).idle.value <= Deadline(s.origins[id]))
            && (ReplyTo(s, e).Minted? ==>
                 && ReplyTo(s, e).expiries.absolute == Deadline(s.origins[id])
                 && ReplyTo(s, e).expiries.idle <= Deadline(s.origins[id]))
  {
    ReachedInv(s);
    if e.RotateCommit? {
      assert Holds(s.txns, e.pid, s.txns[e.pid].id);
    }
  }

  // ---- Revocation ---------------------------------------------------------------------------

  /** Revocation is permanent: the row keeps the very time it was revoked at for as long as it
      exists, whichever transactions had already read it, and once gone it never comes back. */
  lemma RevocationIsPermanent(s: State, es: seq<Event>, fs: seq<Event>, id: Uuid)
    requires Reached(s) && Run(s, es) && Run(After(s, es), fs) && id in s.rows && s.rows[id].revokedAt.Some?
    ensures var t := After(s, es).rows; id in t ==> t[id].revokedAt == s.rows[id].revokedAt
    ensures id !in After(s, es).rows ==> id !in After(After(s, es), fs).rows
  {
    ReachedInv(s);
    RunAdvances(s, es);
    RunKeepsInv(s, es);
    RunAdvances(After(s, es), fs);
  }

  /** Lineage `l` has begun and none of its sessions is un-revoked. */
  ghost predicate LineageOver(s: State, l: nat)
    requires History(s)
  {
    l < |s.origins| && forall a :: Live(s.rows, a) ==> s.origins[a].lineage != l
  }

  lemma StepKeepsLineageOver(s: State, e: Event, l: nat)
    requires Inv(s) && Enabled(s, e) && LineageOver(s, l) && Inv(Step(s, e))
    ensures LineageOver(Step(s, e), l)
  {
    var t := Step(s, e);
    StepAdvances(s, e);
    forall a | Live(t.rows, a)
      ensures t.origins[a].lineage != l
    {
      if a in s.rows {
        assert Live(s.rows, a);
      } else if e.RotateCommit? {
        assert Holds(s.txns, e.pid, s.txns[e.pid].id) && Live(s.rows, s.txns[e.pid].id);
      }
    }
  }

  lemma {:induction false} RunKeepsLineageOver(s: State, es: seq<Event>, l: nat)
    requires Inv(s) && Run(s, es) && LineageOver(s, l)
    ensures Inv(After(s, es)) && LineageOver(After(s, es), l)
    decreases |es|
  {
    if es != [] {
      StepKeepsInv(s, es[0]);
      StepKeepsLineageOver(s, es[0], l);
      RunKeepsLineageOver(Step(s, es[0]), es[1..], l);
    }
  }

  /** A lineage without an un-revoked session never gains one, not even through a rotation or a
      touch that had started before. */
  lemma LineageNeverRevives(s: State, es: seq<Event>, l: nat, id: Uuid)
    requires Reached(s) && Run(s, es) && l < |s.origins|
    requires forall a :: Live(s.rows, a) && a in s.origins ==> s.origins[a].lineage != l
    ensures var t := After(s, es); Live(t.rows, id) ==> id in t.origins && t.origins[id].lineage != l
  {
    ReachedInv(s);
    RunKeepsLineageOver(s, es, l);
  }

  /** Revoking by token changes nothing but the row of that token. In particular, when a rotation of
      the token has already committed, its successor stays as it is. */
  lemma RevokeTouchesOnlyItsToken(s: State, now: Time, h: Digest, id: Uuid)
    requires Reached(s) && Enabled(s, RevokeSession(now, h)) && id in s.rows
    ensures var t := Step(s, RevokeSession(now, h)).rows;
            && t.Keys == s.rows.Keys
            && (s.rows[id].tokenHash != h ==> t[id] == s.rows[id])
            && (s.rows[id].tokenHash == h ==>
                 t[id] == if Live(s.rows, id) then s.rows[id].(revokedAt := Some(now)) else s.rows[id])
  {
    ReachedInv(s);
    FindUnique(s.rows, id);
  }

  /** So a logout ends its login exactly when the token presented is still the one in use, or the
      login is over already; after a refresh, the successor stays live. */
  lemma LogoutEndsLoginIff(s: State, now: Time, h: Digest, id: Uuid)
    requires Reached(s) && Enabled(s, RevokeSession(now, h)) && HasHash(s.rows, id, h) && id in s.origins
    ensures var l, t := s.origins[id].lineage, Step(s, RevokeSession(now, h));
            (forall a :: Live(t.rows, a) && a in t.origins ==> t.origins[a].lineage != l)
            <==> Live(s.rows, id) || (forall a :: Live(s.rows, a) && a in s.origins ==> s.origins[a].lineage != l)
  {
    ReachedInv(s);
    FindUnique(s.rows, id);
    var l, t := s.origins[id].lineage, Step(s, RevokeSession(now, h));
    assert forall a :: Live(t.rows, a) <==> Live(s.rows, a) && a != id;
  }

  // ---- Tokens that are used up ----------------------------------------------------------------

  /** `h` has been named and no un-revoked row carries it. */
  ghost predicate Spent(s: State, h: Digest) {
    h in s.seen && forall id :: Live(s.rows, id) ==> !HasHash(s.rows, id, h)
  }

  /** A row that an event adds carries the hash the event brought. */
  lemma AddedRowIsNamed(s: State, e: Event, id: Uuid)
    requires Enabled(s, e) && id in Step(s, e).rows && id !in s.rows
    ensures e.CreateSession? || e.RotateCommit?
    ensures Step(s, e).rows[id].tokenHash == if e.CreateSession? then e.login.tokenHash else e.rotation.newHash
  {
  }

  lemma StepKeepsSpent(s: State, e: Event, h: Digest)
    requires Inv(s) && Enabled(s, e) && Fresh(s, e) && Spent(s, h)
    ensures Spent(Step(s, e), h)
  {
    StepAdvances(s, e);
    SpentFromOldRows(s, Step(s, e), h) by {
      forall id | id in Step(s, e).rows && id !in s.rows
        ensures Step(s, e).rows[id].tokenHash != h
      {
        AddedRowIsNamed(s, e, id);
      }
    }
  }

  lemma SpentFromOldRows(s: State, t: State, h: Digest)
    requires Advances(s, t) && Spent(s, h)
    requires forall id :: id in t.rows && id !in s.rows ==> t.rows[id].tokenHash != h
    ensures Spent(t, h)
  {
    assert forall id :: Live(t.rows, id) && id in s.rows ==>
                          Live(s.rows, id) && HasHash(s.rows, id, h) == HasHash(t.rows, id, h);
  }

  lemma {:induction false} RunKeepsSpent(s: State, es: seq<Event>, h: Digest)
    requires Inv(s) && Run(s, es) && FreshRun(s, es) && Spent(s, h)
    ensures Spent(After(s, es), h)
    decreases |es|
  {
    if es != [] {
      StepKeepsInv(s, es[0]);
      StepKeepsSpent(s, es[0], h);
      RunKeepsSpent(Step(s, es[0]), es[1..], h);
    }
  }

  /** A rotation of the token `h` that mints a session. */
  ghost predicate Wins(s: State, e: Event, h: Digest)
    requires Enabled(s, e)
  {
    e.RotateCommit? && s.txns[e.pid].read.tokenHash == h && ReplyTo(s, e).Minted?
  }

  lemma WinSpends(s: State, e: Event, h: Digest)
    requires Inv(s) && Enabled(s, e) && Fresh(s, e) && Wins(s, e, h)
    ensures Spent(Step(s, e), h)
  {
    var x := s.txns[e.pid];
    assert Holds(s.txns, e.pid, x.id) && HasHash(s.rows, x.id, h);
    var t := Step(s, e);
    forall id | Live(t.rows, id)
      ensures !HasHash(t.rows, id, h)
    {
      assert id != e.newId && HasHash(t.rows, id, h) ==> HasHash(s.rows, id, h);
    }
  }

  /** What calls on a spent token get. */
  lemma SpentTokenIsRefused(s: State, e: Event, h: Digest)
    requires Inv(s) && Enabled(s, e) && Spent(s, h)
    ensures e.GetSession? && e.h == h ==> ReplyTo(s, e) in {Refused(SessionNotFound), Refused(SessionRevoked)}
    ensures e.TouchSelect? && e.h == h ==> ReplyTo(s, e) in {Refused(SessionNotFound), Refused(SessionRevoked)}
    ensures e.RotateLock? && e.h == h ==>
              ReplyTo(s, e) == Refused(SessionNotFound)
              || (Find(s.rows, h).Some? && s.rows[Find(s.rows, h).value].revokedAt.Some?)
    ensures e.RotateCommit? && s.txns[e.pid].read.tokenHash == h ==> ReplyTo(s, e) == Refused(SessionRevoked)
  {
    var found := Find(s.rows, h);
    if found.Some? {
      assert HasHash(s.rows, found.value, h);
      assert !Live(s.rows, found.value);
    }
    if e.RotateCommit? && s.txns[e.pid].read.tokenHash == h {
      var id := s.txns[e.pid].id;
      assert Holds(s.txns, e.pid, id) && HasHash(s.rows, id, h);
      assert !Live(s.rows, id);
    }
  }

  /** Once a rotation of `h` has minted a session, none ever does again: in whatever happens next a
      rotation that looks `h` up finds no row or a revoked one, and a rotation that read `h` gets
      SESSION_REVOKED when it commits. */
  lemma OneRotationEverWins(s: State, win: Event, es: seq<Event>, e: Event, h: Digest)
    requires Reached(s) && Enabled(s, win) && Fresh(s, win) && Wins(s, win, h)
    requires Run(Step(s, win), es) && FreshRun(Step(s, win), es) && Enabled(After(Step(s, win), es), e)
    ensures var t := After(Step(s, win), es);
            && !Wins(t, e, h)
            && (e.RotateCommit? && t.txns[e.pid].read.tokenHash == h ==> ReplyTo(t, e) == Refused(SessionRevoked))
            && (e.RotateLock? && e.h == h ==>
                 ReplyTo(t, e) == Refused(SessionNotFound)
                 || (Find(t.rows, h).Some? && t.rows[Find(t.rows, h).value].revokedAt.Some?))
  {
    ReachedInv(s);
    StepKeepsInv(s, win);
    WinSpends(s, win, h);
    RunKeepsSpent(Step(s, win), es, h);
    RunKeepsInv(Step(s, win), es);
    SpentTokenIsRefused(After(Step(s, win), es), e, h);
  }

  // ---- A race of rotations ----------------------------------------------------------------------

  /** Only rotations of `h` run, and each starts while the row `r` is unexpired. */
  predicate Contends(e: Event, h: Digest, r: Row) {
    match e
    case RotateLock(_, now, h') => h' == h && !Expired(r, now)
    case RotateCommit(_, _, _) => true
    case _ => false
  }

  predicate Contest(es: seq<Event>, h: Digest, r: Row) { forall e :: e in es ==> Contends(e, h, r) }

  predicate AnyCommit(es: seq<Event>) { exists e :: e in es && e.RotateCommit? }

  ghost function WinCount(s: State, es: seq<Event>, h: Digest): nat
    requires Run(s, es)
    decreases |es|
  {
    if es == [] then 0
    else (if Wins(s, es[0], h) then 1 else 0) + WinCount(Step(s, es[0]), es[1..], h)
  }

  lemma {:induction false} SpentHasNoWinner(s: State, es: seq<Event>, h: Digest)
    requires Inv(s) && Spent(s, h) && Run(s, es) && FreshRun(s, es)
    ensures WinCount(s, es, h) == 0
    decreases |es|
  {
    if es != [] {
      SpentTokenIsRefused(s, es[0], h);
      StepKeepsInv(s, es[0]);
      StepKeepsSpent(s, es[0], h);
      SpentHasNoWinner(Step(s, es[0]), es[1..], h);
    }
  }

  /** The contested row is un-revoked, and whoever holds its lock started in time. */
  ghost predicate Open(s: State, id: Uuid, h: Digest, r: Row) {
    && Inv(s) && Live(s.rows, id) && s.rows[id] == r && r.tokenHash == h
    && forall p :: p in s.txns ==> s.txns[p].Rotating? && s.txns[p].id == id && !Expired(r, s.txns[p].now)
  }

  lemma CommitInOpenWins(s: State, e: Event, id: Uuid, h: Digest, r: Row)
    requires Open(s, id, h, r) && Enabled(s, e) && Fresh(s, e) && e.RotateCommit?
    ensures Wins(s, e, h)
  {
    assert Holds(s.txns, e.pid, id);
  }

  lemma LockKeepsOpen(s: State, e: Event, id: Uuid, h: Digest, r: Row)
    requires Open(s, id, h, r) && Enabled(s, e) && e.RotateLock? && Contends(e, h, r)
    ensures Open(Step(s, e), id, h, r)
  {
    FindUnique(s.rows, id);
    StepKeepsInv(s, e);
  }

  lemma {:induction false} OpenContestHasOneWinner(s: State, es: seq<Event>, id: Uuid, h: Digest, r: Row)
    requires Open(s, id, h, r) && Run(s, es) && FreshRun(s, es) && Contest(es, h, r)
    ensures WinCount(s, es, h) == if AnyCommit(es) then 1 else 0
    decreases |es|
  {
    if es != [] {
      var e := es[0];
      assert e in es && es == [e] + es[1..];
      if e.RotateCommit? {
        CommitInOpenWins(s, e, id, h, r);
        WinSpends(s, e, h);
        StepKeepsInv(s, e);
        SpentHasNoWinner(Step(s, e), es[1..], h);
      } else {
        assert Contends(e, h, r);
        LockKeepsOpen(s, e, id, h, r);
        OpenContestHasOneWinner(Step(s, e), es[1..], id, h, r);
      }
    }
  }

  /** When only rotations of one live session run, any number of them in any interleaving, all
      started while it was active, exactly one wins as soon as one finishes. */
  lemma RaceHasExactlyOneWinner(s: State, es: seq<Event>, id: Uuid)
    requires Reached(s) && s.txns == map[] && Live(s.rows, id)
    requires Run(s, es) && FreshRun(s, es) && Contest(es, s.rows[id].tokenHash, s.rows[id])
    ensures WinCount(s, es, s.rows[id].tokenHash) == if AnyCommit(es) then 1 else 0
  {
    ReachedInv(s);
    OpenContestHasOneWinner(s, es, id, s.rows[id].tokenHash, s.rows[id]);
  }

  /** In any state, a purge with a grace window of at least -1 microsecond removes no session that was active when
      the purge started. */
  lemma PurgeSparesActive(s: State, now: Time, grace: int, ids: set<Uuid>, id: Uuid)
    requires Enabled(s, Purge(now, grace, ids)) && -1 <= grace && id in s.rows && Active(s.rows[id], now)
    ensures var t := Step(s, Purge(now, grace, ids)).rows; id in t && Active(t[id], now)
  {
    PurgeSparesActiveIff(now, grace);
  }

  // ---- The two-event operations, undisturbed ------------------------------------------------------

  /** A rotation no other transaction comes between is one call of rotate_user_session. */
  lemma UndisturbedRotationIsRotate(s: State, pid: Pid, now: Time, h: Digest, newId: Uuid, n: Rotation)
    requires Enabled(s, RotateLock(pid, now, h)) && newId !in s.origins
    ensures var locked := Step(s, RotateLock(pid, now, h));
            var whole := Rotate(s.rows, now, h, newId, n);
            if pid in locked.txns
            then (Step(locked, RotateCommit(pid, newId, n)).rows, ReplyTo(locked, RotateCommit(pid, newId, n)))
                   == (whole.0, OutcomeReply(whole.1))
            else (locked.rows, ReplyTo(s, RotateLock(pid, now, h))) == (whole.0, OutcomeReply(whole.1))
  {
  }

  /** A touch no other transaction comes between is one call of touch_user_session. */
  lemma UndisturbedTouchIsTouch(s: State, pid: Pid, now: Time, h: Digest, idleTtl: int)
    requires Enabled(s, TouchSelect(pid, now, h, idleTtl))
    requires Find(s.rows, h).Some? ==> !Locked(s, Find(s.rows, h).value)
    ensures var read := Step(s, TouchSelect(pid, now, h, idleTtl));
            var whole := Touch(s.rows, now, h, idleTtl);
            if pid in read.txns
            then && whole.1.Ok? && Enabled(read, TouchUpdate(pid))
                 && Step(read, TouchUpdate(pid)).rows == whole.0
                 && ReplyTo(read, TouchUpdate(pid)) == Slid(whole.1.value)
            else && whole.0 == s.rows && whole.1.Error?
                 && ReplyTo(s, TouchSelect(pid, now, h, idleTtl)) == Refused(whole.1.code)
  {
    var read := Step(s, TouchSelect(pid, now, h, idleTtl));
    assert forall p, id :: Holds(read.txns, p, id) ==> Holds(s.txns, p, id);
  }
}
