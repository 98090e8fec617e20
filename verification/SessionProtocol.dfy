/** The session store under concurrent transactions at READ COMMITTED.

    Each event below is one moment at which a transaction reads or commits. A rotation is two
    events, the SELECT ... FOR UPDATE that locks and reads the row and the commit of what follows;
    a touch is two events, the SELECT, which takes no lock, and the UPDATE; a bulk revocation is two
    events, the snapshot its UPDATE selects rows from and its commit, which checks each of these rows
    again as it then is. Start times are arbitrary: no event needs the clock to be monotone. An
    UPDATE or DELETE that reaches a locked row is enabled only once the lock is free.

    The state carries a history that no event reads: for every row id ever inserted the login it
    descends from, and every token hash ever named. */
module SessionProtocol {
  import opened Wrappers
  import opened SessionTable

  type Pid = nat

  /** Where a row comes from: the number of the login it descends from, its own place in the order
      of insertion, and what that login fixed. */
  datatype Origin = Origin(lineage: nat, birth: nat, user: Uuid, tenant: Uuid, loginAt: Time, absoluteTtl: int)

  function Deadline(o: Origin): Time { o.loginAt + o.absoluteTtl }

  datatype Txn =
    | Rotating(now: Time, id: Uuid, read: Row)
    | Touching(now: Time, id: Uuid, idleTtl: int)
    | Revoking(now: Time, user: Uuid, tenant: Uuid, snapshot: set<Uuid>)

  datatype State = State(rows: Table, txns: map<Pid, Txn>, origins: map<Uuid, Origin>, seen: set<Digest>)

  const EMPTY := State(map[], map[], map[], {})

  datatype Event =
    | CreateSession(id: Uuid, now: Time, login: Login, tenantActive: bool, member: bool)
    | GetSession(now: Time, h: Digest)
    | TouchSelect(pid: Pid, now: Time, h: Digest, idleTtl: int)
    | TouchUpdate(pid: Pid)
    | RotateLock(pid: Pid, now: Time, h: Digest)
    | RotateCommit(pid: Pid, newId: Uuid, rotation: Rotation)
    | RevokeSession(now: Time, h: Digest)
    | RevokeAllSelect(pid: Pid, now: Time, user: Uuid, tenant: Uuid)
    | RevokeAllCommit(pid: Pid)
    | Purge(now: Time, grace: int, ids: set<Uuid>)
    | Abort(pid: Pid)

  datatype Reply =
    | Minted(expiries: Expiries)
    | Resolved(row: Row)
    | Slid(idle: Option<Time>)
    | Refused(code: DbCode)
    | Conflict
    | Counted(count: nat)
    | InProgress
    | Done

  // ---- Steps ----------------------------------------------------------------------------

  /** Transaction `p` holds the lock on row `id`. */
  predicate Holds(txns: map<Pid, Txn>, p: Pid, id: Uuid) { p in txns && txns[p].Rotating? && txns[p].id == id }

  ghost predicate Locked(s: State, id: Uuid) { exists p :: Holds(s.txns, p, id) }

  ghost predicate AllFree(s: State, ids: set<Uuid>) { forall id :: id in ids ==> !Locked(s, id) }

  ghost predicate Enabled(s: State, e: Event)
  {
    match e
    case CreateSession(id, _, _, _, _) => id !in s.origins
    case GetSession(_, _) => true
    case TouchSelect(pid, _, _, _) => pid !in s.txns
    case TouchUpdate(pid) => pid in s.txns && s.txns[pid].Touching? && !Locked(s, s.txns[pid].id)
    case RotateLock(pid, _, h) => pid !in s.txns && (Find(s.rows, h).Some? ==> !Locked(s, Find(s.rows, h).value))
    case RotateCommit(pid, newId, _) => pid in s.txns && s.txns[pid].Rotating? && newId !in s.origins
    case RevokeSession(_, h) =>
      var found := Find(s.rows, h);
      found.Some? && s.rows[found.value].revokedAt.None? ==> !Locked(s, found.value)
    case RevokeAllSelect(pid, _, _, _) => pid !in s.txns
    case RevokeAllCommit(pid) => pid in s.txns && s.txns[pid].Revoking? && AllFree(s, s.txns[pid].snapshot)
    case Purge(now, grace, ids) =>
      && ids <= PurgeableIn(s.rows, now, grace) && AllFree(s, ids)
      && (forall id :: id in s.rows && s.rows[id].rotatedFrom.Some? && s.rows[id].rotatedFrom.value in ids ==>
           !Locked(s, id))
    case Abort(pid) => pid in s.txns
  }

  function Finish(s: State, pid: Pid): State { s.(txns := s.txns - {pid}) }

  ghost function TouchSelected(s: State, pid: Pid, now: Time, h: Digest, idleTtl: int): State
  {
    var s := s.(seen := s.seen + {h});
    match Find(s.rows, h)
    case None => s
    case Some(id) =>
      if Rejection(s.rows[id], now).Some? then s else s.(txns := s.txns[pid := Touching(now, id, idleTtl)])
  }

  ghost function RotateStarted(s: State, pid: Pid, now: Time, h: Digest): State
  {
    var s := s.(seen := s.seen + {h});
    match Find(s.rows, h)
    case None => s
    case Some(id) => s.(txns := s.txns[pid := Rotating(now, id, s.rows[id])])
  }

  ghost function RotateCommitted(s: State, pid: Pid, newId: Uuid, n: Rotation): State
    requires pid in s.txns && s.txns[pid].Rotating?
  {
    var x := s.txns[pid];
    var r := RotateLocked(s.rows, x.id, x.read, x.now, newId, n);
    var t := Finish(s, pid).(rows := r.0, seen := s.seen + {n.newHash});
    if r.1.Ok? && x.id in s.origins
    then t.(origins := s.origins[newId := s.origins[x.id].(birth := |s.origins|)])
    else t
  }

  /** The rows of the snapshot that still match. */
  function StillActive(t: Table, x: Txn): set<Uuid>
    requires x.Revoking?
  {
    x.snapshot * ActiveOf(t, x.now, x.user, x.tenant)
  }

  ghost function Created(s: State, id: Uuid, now: Time, l: Login, tenantActive: bool, member: bool): State
  {
    var r := Create(s.rows, id, now, l, tenantActive, member);
    var t := s.(rows := r.0, seen := s.seen + {l.tokenHash});
    if r.1.Ok?
    then t.(origins := s.origins[id := Origin(|s.origins|, |s.origins|, l.userId, l.tenantId, now, l.absoluteTtl)])
    else t
  }

  ghost function Step(s: State, e: Event): State
    requires Enabled(s, e)
  {
    match e
    case CreateSession(id, now, l, tenantActive, member) => Created(s, id, now, l, tenantActive, member)
    case GetSession(_, h) => s.(seen := s.seen + {h})
    case TouchSelect(pid, now, h, idleTtl) => TouchSelected(s, pid, now, h, idleTtl)
    case TouchUpdate(pid) =>
      var x := s.txns[pid];
      Finish(s, pid).(rows := Slide(s.rows, x.id, x.now, x.idleTtl).0)
    case RotateLock(pid, now, h) => RotateStarted(s, pid, now, h)
    case RotateCommit(pid, newId, n) => RotateCommitted(s, pid, newId, n)
    case RevokeSession(now, h) => s.(rows := Revoke(s.rows, now, h), seen := s.seen + {h})
    case RevokeAllSelect(pid, now, user, tenant) =>
      s.(txns := s.txns[pid := Revoking(now, user, tenant, ActiveOf(s.rows, now, user, tenant))])
    case RevokeAllCommit(pid) =>
      var x := s.txns[pid];
      Finish(s, pid).(rows := MarkRevoked(s.rows, StillActive(s.rows, x), x.now))
    case Purge(_, _, ids) => s.(rows := Delete(s.rows, ids))
    case Abort(pid) => Finish(s, pid)
  }

  function OutcomeReply(o: Outcome<Expiries>): Reply {
    match o
    case Ok(v) => Minted(v)
    case Error(code) => Refused(code)
    case UniqueViolation => Conflict
  }

  ghost function ReplyTo(s: State, e: Event): Reply
    requires Enabled(s, e)
  {
    match e
    case CreateSession(id, now, l, tenantActive, member) =>
      OutcomeReply(Create(s.rows, id, now, l, tenantActive, member).1)
    case GetSession(now, h) =>
      (match Get(s.rows, now, h)
       case Ok(r) => Resolved(r)
       case Error(code) => Refused(code)
       case UniqueViolation => Conflict)
    case TouchSelect(_, now, h, _) =>
      (match Find(s.rows, h)
       case None => Refused(SessionNotFound)
       case Some(id) =>
         var rejection := Rejection(s.rows[id], now);
         if rejection.Some? then Refused(rejection.value) else InProgress)
    case TouchUpdate(pid) => var x := s.txns[pid]; Slid(Slide(s.rows, x.id, x.now, x.idleTtl).1)
    case RotateLock(_, _, h) => if Find(s.rows, h).None? then Refused(SessionNotFound) else InProgress
    case RotateCommit(pid, newId, n) =>
      var x := s.txns[pid];
      OutcomeReply(RotateLocked(s.rows, x.id, x.read, x.now, newId, n).1)
    case RevokeAllSelect(_, _, _, _) => InProgress
    case RevokeAllCommit(pid) => Counted(|StillActive(s.rows, s.txns[pid])|)
    case _ => Done
  }

  // ---- The invariant ----------------------------------------------------------------------

  ghost predicate History(s: State) {
    && s.rows.Keys <= s.origins.Keys
    && (forall id :: id in s.rows ==> s.rows[id].tokenHash in s.seen)
    && (forall id :: id in s.origins ==> s.origins[id].lineage <= s.origins[id].birth < |s.origins|)
  }

  /** What every row keeps from the login of its lineage, whatever touches and rotations did. */
  ghost predicate KeepsLogin(s: State)
    requires History(s)
  {
    forall id :: id in s.rows ==>
      && s.rows[id].absolute == Deadline(s.origins[id])
      && s.rows[id].userId == s.origins[id].user && s.rows[id].tenantId == s.origins[id].tenant
  }

  predicate Live(t: Table, id: Uuid) { id in t && t[id].revokedAt.None? }

  ghost predicate OneLivePerLineage(s: State)
    requires History(s)
  {
    forall a, b {:trigger Live(s.rows, a), Live(s.rows, b)} ::
      Live(s.rows, a) && Live(s.rows, b) && s.origins[a].lineage == s.origins[b].lineage ==> a == b
  }

  ghost predicate GoodLinks(s: State)
    requires History(s)
  {
    && (forall p, id {:trigger Link(s.rows, p, id)} :: Link(s.rows, p, id) ==>
         && p in s.rows && s.rows[p].revokedAt.Some?
         && s.origins[p].birth < s.origins[id].birth
         && s.origins[p] == s.origins[id].(birth := s.origins[p].birth))
    && (forall p, a, b :: Link(s.rows, p, a) && Link(s.rows, p, b) ==> a == b)
  }

  /** A transaction that holds a row lock has read the row as it still is, and no other holds it.
      A touch that passed its checks started before the deadline of the lineage. */
  ghost predicate LocksHold(s: State) {
    && (forall p, id :: Holds(s.txns, p, id) ==> id in s.rows && s.rows[id] == s.txns[p].read)
    && (forall p, q, id :: Holds(s.txns, p, id) && Holds(s.txns, q, id) ==> p == q)
    && (forall p :: p in s.txns && s.txns[p].Touching? ==>
         s.txns[p].id in s.origins && s.txns[p].now < Deadline(s.origins[s.txns[p].id]))
  }

  ghost predicate Inv(s: State) {
    && History(s) && Constraints(s.rows) && KeepsLogin(s) && OneLivePerLineage(s) && GoodLinks(s) && LocksHold(s)
  }

  // ---- Every event keeps the invariant --------------------------------------------------------

  /** What any event may do to a row it does not delete. */
  predicate RowKept(r: Row, q: Row) {
    && q.tokenHash == r.tokenHash && q.userId == r.userId && q.tenantId == r.tenantId
    && q.absolute == r.absolute && q.idle <= q.absolute && q.tokens == r.tokens
    && (r.revokedAt.Some? ==> q.revokedAt == r.revokedAt)
    && (q.rotatedFrom == r.rotatedFrom || q.rotatedFrom.None?)
  }

  ghost predicate RowsKept(t: Table, u: Table) { forall id :: id in t && id in u ==> RowKept(t[id], u[id]) }

  lemma ShrinkKeepsInv(s: State, t: State)
    requires Inv(s) && t.origins == s.origins && s.seen <= t.seen && LocksHold(t)
    requires t.rows.Keys <= s.rows.Keys && RowsKept(s.rows, t.rows) && Constraints(t.rows)
    ensures Inv(t)
  {
    assert forall p, i :: Link(t.rows, p, i) ==> Link(s.rows, p, i);
    assert forall a :: Live(t.rows, a) ==> Live(s.rows, a);
    assert History(t);
    assert GoodLinks(t);
  }

  lemma SameRowsKeepInv(s: State, t: State)
    requires Inv(s) && t.rows == s.rows && t.origins == s.origins && s.seen <= t.seen && LocksHold(t)
    ensures Inv(t)
  {
  }

  /** `t` is `s` with the new row `r` of origin `o` under the new id `id`. */
  ghost predicate Inserts(s: State, t: State, id: Uuid, r: Row, o: Origin) {
    && id !in s.origins && !HashInUse(s.rows, r.tokenHash)
    && t.rows == s.rows[id := r] && t.origins == s.origins[id := o] && t.seen == s.seen + {r.tokenHash}
    && o.birth == |s.origins| && o.lineage <= o.birth
    && r.absolute == Deadline(o) && r.idle <= r.absolute && r.userId == o.user && r.tenantId == o.tenant
  }

  /** The row it was rotated from, if any, is revoked, has the same origin and has no successor yet. */
  ghost predicate FollowsRevoked(s: State, r: Row, o: Origin)
    requires History(s)
  {
    r.rotatedFrom.Some? ==>
      var p := r.rotatedFrom.value;
      && p in s.rows && s.rows[p].revokedAt.Some? && s.origins[p] == o.(birth := s.origins[p].birth)
      && forall i :: !Link(s.rows, p, i)
  }

  lemma InsertKeepsRows(s: State, t: State, id: Uuid, r: Row, o: Origin)
    requires History(s) && Constraints(s.rows) && KeepsLogin(s) && Inserts(s, t, id, r, o) && FollowsRevoked(s, r, o)
    ensures History(t) && Constraints(t.rows) && KeepsLogin(t)
  {
    InsertKeepsConstraints(s.rows, id, r);
    assert forall i :: i in s.rows ==> i != id && t.rows[i] == s.rows[i] && t.origins[i] == s.origins[i];
  }

  lemma InsertKeepsLinks(s: State, t: State, id: Uuid, r: Row, o: Origin)
    requires History(s) && History(t) && GoodLinks(s) && LinksPresent(s.rows)
    requires Inserts(s, t, id, r, o) && FollowsRevoked(s, r, o)
    ensures GoodLinks(t)
  {
    assert forall p: Uuid, i :: Link(t.rows, p, i) ==> Link(s.rows, p, i) || (i == id && r.rotatedFrom == Some(p));
    assert forall i :: i in s.rows ==> i != id && t.rows[i] == s.rows[i] && t.origins[i] == s.origins[i];
  }

  lemma InsertKeepsInv(s: State, t: State, id: Uuid, r: Row, o: Origin)
    requires Inv(s) && LocksHold(t) && Inserts(s, t, id, r, o) && FollowsRevoked(s, r, o)
    requires forall a :: Live(s.rows, a) ==> s.origins[a].lineage != o.lineage
    ensures Inv(t)
  {
    InsertKeepsRows(s, t, id, r, o);
    InsertKeepsLinks(s, t, id, r, o);
    assert forall a :: Live(t.rows, a) ==> (Live(s.rows, a) && t.origins[a] == s.origins[a]) || a == id;
  }

  /** An event that starts nothing and leaves every locked row as it was keeps the locks. */
  lemma LocksSurvive(s: State, t: State)
    requires LocksHold(s) && (forall id :: id in s.origins ==> id in t.origins && t.origins[id] == s.origins[id])
    requires forall p :: p in t.txns ==> p in s.txns && t.txns[p] == s.txns[p]
    requires forall p, id :: Holds(t.txns, p, id) && id in s.rows ==> id in t.rows && t.rows[id] == s.rows[id]
    ensures LocksHold(t)
  {
    assert forall p, id :: Holds(t.txns, p, id) ==> Holds(s.txns, p, id);
  }

  lemma CreateKeepsInv(s: State, id: Uuid, now: Time, l: Login, tenantActive: bool, member: bool)
    requires Inv(s) && id !in s.origins
    ensures Inv(Created(s, id, now, l, tenantActive, member))
  {
    var t := Created(s, id, now, l, tenantActive, member);
    LocksSurvive(s, t);
    if Create(s.rows, id, now, l, tenantActive, member).1.Ok? {
      InsertKeepsInv(s, t, id, t.rows[id], t.origins[id]);
    } else {
      SameRowsKeepInv(s, t);
    }
  }

  lemma RotationRevoked(s: State, pid: Pid) returns (mid: State)
    requires Inv(s) && pid in s.txns && s.txns[pid].Rotating? && s.txns[pid].read.revokedAt.None?
    ensures mid == Finish(s, pid).(rows := MarkRevoked(s.rows, {s.txns[pid].id}, s.txns[pid].now))
    ensures Inv(mid)
    ensures forall i :: !Link(mid.rows, s.txns[pid].id, i)
    ensures forall a :: Live(mid.rows, a) ==> mid.origins[a].lineage != mid.origins[s.txns[pid].id].lineage
  {
    var x := s.txns[pid];
    mid := Finish(s, pid).(rows := MarkRevoked(s.rows, {x.id}, x.now));
    assert forall p, i :: Link(mid.rows, p, i) == Link(s.rows, p, i);
    assert Holds(s.txns, pid, x.id) && Live(s.rows, x.id);
    assert forall i :: !Link(s.rows, x.id, i);
    assert forall p :: p in mid.txns && Holds(mid.txns, p, x.id) ==> Holds(s.txns, p, x.id);
    LocksSurvive(s, mid);
    KeepsConstraints(s.rows, mid.rows);
    ShrinkKeepsInv(s, mid);
    assert forall a :: Live(mid.rows, a) ==> Live(s.rows, a) && a != x.id;
  }

  /** A rotation that succeeds is a revocation of the old row and then an insertion. */
  lemma RotateCommitKeepsInv(s: State, pid: Pid, newId: Uuid, n: Rotation)
    requires Inv(s) && pid in s.txns && s.txns[pid].Rotating? && newId !in s.origins
    ensures Inv(RotateCommitted(s, pid, newId, n))
  {
    var x := s.txns[pid];
    var t := RotateCommitted(s, pid, newId, n);
    if RotateLocked(s.rows, x.id, x.read, x.now, newId, n).1.Ok? {
      assert Holds(s.txns, pid, x.id);
      var mid := RotationRevoked(s, pid);
      assert forall i, h :: HasHash(mid.rows, i, h) == HasHash(s.rows, i, h);
      var r, o := SuccessorRow(x.read, x.id, x.now, n), s.origins[x.id].(birth := |s.origins|);
      assert t.rows == mid.rows[newId := r];
      InsertKeepsInv(mid, t, newId, r, o);
    } else {
      LocksSurvive(s, t);
      SameRowsKeepInv(s, t);
    }
  }

  lemma RotateLockKeepsInv(s: State, pid: Pid, now: Time, h: Digest)
    requires Inv(s) && Enabled(s, RotateLock(pid, now, h))
    ensures Inv(RotateStarted(s, pid, now, h))
  {
    var t := RotateStarted(s, pid, now, h);
    assert forall p, id: Uuid :: Holds(t.txns, p, id) ==>
                                   Holds(s.txns, p, id) || (p == pid && Find(s.rows, h) == Some(id));
    SameRowsKeepInv(s, t);
  }

  lemma TouchSelectKeepsInv(s: State, pid: Pid, now: Time, h: Digest, idleTtl: int)
    requires Inv(s) && Enabled(s, TouchSelect(pid, now, h, idleTtl))
    ensures Inv(TouchSelected(s, pid, now, h, idleTtl))
  {
    var t := TouchSelected(s, pid, now, h, idleTtl);
    assert forall p, id :: Holds(t.txns, p, id) ==> Holds(s.txns, p, id);
    SameRowsKeepInv(s, t);
  }

  lemma RevokeKeepsInv(s: State, ids: set<Uuid>, now: Time, seen: set<Digest>)
    requires Inv(s) && AllFree(s, ids) && s.seen <= seen
    requires forall id :: id in ids && id in s.rows ==> Live(s.rows, id)
    ensures Inv(s.(rows := MarkRevoked(s.rows, ids, now), seen := seen))
  {
    var t := s.(rows := MarkRevoked(s.rows, ids, now), seen := seen);
    KeepsConstraints(s.rows, t.rows);
    assert forall p, id :: Holds(s.txns, p, id) ==> id !in ids;
    LocksSurvive(s, t);
    ShrinkKeepsInv(s, t);
  }

  lemma TouchUpdateKeepsInv(s: State, pid: Pid)
    requires Inv(s) && Enabled(s, TouchUpdate(pid))
    ensures Inv(Step(s, TouchUpdate(pid)))
  {
    var t := Step(s, TouchUpdate(pid));
    KeepsConstraints(s.rows, t.rows);
    assert forall p, id :: Holds(t.txns, p, id) ==> Holds(s.txns, p, id) && id != s.txns[pid].id;
    LocksSurvive(s, t);
    ShrinkKeepsInv(s, t);
  }

  lemma PurgeKeepsInv(s: State, now: Time, grace: int, ids: set<Uuid>)
    requires Inv(s) && Enabled(s, Purge(now, grace, ids))
    ensures Inv(Step(s, Purge(now, grace, ids)))
  {
    var t := Step(s, Purge(now, grace, ids));
    KeepsConstraints(s.rows, t.rows);
    forall p, id | Holds(s.txns, p, id)
      ensures id in t.rows && t.rows[id] == s.rows[id]
    {
      assert Locked(s, id);
    }
    LocksSurvive(s, t);
    ShrinkKeepsInv(s, t);
  }

  lemma RevokeSessionKeepsInv(s: State, now: Time, h: Digest)
    requires Inv(s) && Enabled(s, RevokeSession(now, h))
    ensures Inv(Step(s, RevokeSession(now, h)))
  {
    var found := Find(s.rows, h);
    if found.Some? && s.rows[found.value].revokedAt.None? {
      RevokeKeepsInv(s, {found.value}, now, s.seen + {h});
    } else {
      SameRowsKeepInv(s, Step(s, RevokeSession(now, h)));
    }
  }

  lemma ReadKeepsInv(s: State, e: Event)
    requires Inv(s) && Enabled(s, e) && (e.GetSession? || e.RevokeAllSelect? || e.Abort?)
    ensures Inv(Step(s, e))
  {
    var t := Step(s, e);
    assert forall p, id :: Holds(t.txns, p, id) ==> Holds(s.txns, p, id);
    SameRowsKeepInv(s, t);
  }

  lemma RevokeAllCommitKeepsInv(s: State, pid: Pid)
    requires Inv(s) && Enabled(s, RevokeAllCommit(pid))
    ensures Inv(Step(s, RevokeAllCommit(pid)))
  {
    var x, mid := s.txns[pid], Finish(s, pid);
    ReadKeepsInv(s, Abort(pid));
    assert forall p, id :: Holds(mid.txns, p, id) ==> Holds(s.txns, p, id);
    RevokeKeepsInv(mid, StillActive(s.rows, x), x.now, s.seen);
  }

  lemma StepKeepsInv(s: State, e: Event)
    requires Inv(s) && Enabled(s, e)
    ensures Inv(Step(s, e))
  {
    match e
    case CreateSession(id, now, l, tenantActive, member) => CreateKeepsInv(s, id, now, l, tenantActive, member);
    case TouchSelect(pid, now, h, idleTtl) => TouchSelectKeepsInv(s, pid, now, h, idleTtl);
    case TouchUpdate(pid) => TouchUpdateKeepsInv(s, pid);
    case RotateLock(pid, now, h) => RotateLockKeepsInv(s, pid, now, h);
    case RotateCommit(pid, newId, n) => RotateCommitKeepsInv(s, pid, newId, n);
    case RevokeSession(now, h) => RevokeSessionKeepsInv(s, now, h);
    case RevokeAllCommit(pid) => RevokeAllCommitKeepsInv(s, pid);
    case Purge(now, grace, ids) => PurgeKeepsInv(s, now, grace, ids);
    case _ => ReadKeepsInv(s, e);
  }
}
