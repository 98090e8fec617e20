/** Log out everywhere, between other transactions: what a bulk revocation reaches and what it misses. */
module BulkRevocation {
  import opened Wrappers
  import opened SessionTable
  import opened SessionProtocol
  import opened SessionSafety
  import opened SessionTouches

  /** A bulk revocation with its snapshot at `s`, the events `es` before its commit, and its commit. */
  ghost predicate Bulk(s: State, sel: Event, es: seq<Event>) {
    && Inv(s) && sel.RevokeAllSelect? && Enabled(s, sel) && Run(Step(s, sel), es) && NoneEnds(es, sel.pid)
    && Enabled(After(Step(s, sel), es), RevokeAllCommit(sel.pid))
  }

  ghost function AfterBulk(s: State, sel: Event, es: seq<Event>): State
    requires Bulk(s, sel, es)
  {
    Step(After(Step(s, sel), es), RevokeAllCommit(sel.pid))
  }

  /** Every session that was active and committed at the snapshot is purged or revoked afterwards,
      unless a touch has meanwhile moved its idle expiry back to the start of the revocation. */
  lemma SnapshotIsReached(s: State, sel: Event, es: seq<Event>, id: Uuid)
    requires Bulk(s, sel, es) && id in ActiveOf(s.rows, sel.now, sel.user, sel.tenant)
    ensures var t := AfterBulk(s, sel, es).rows;
            id in t ==> t[id].revokedAt.Some? || (t[id].idle <= sel.now && t[id].idle != s.rows[id].idle)
  {
    var m := Step(s, sel);
    StepKeepsInv(s, sel);
    TxnStays(m, es, sel.pid);
    RunAdvances(m, es);
    assert id in m.origins;
  }

  /** Every touch of the row that commits reaches beyond `now`. */
  ghost predicate TouchesBeyond(s: State, es: seq<Event>, id: Uuid, now: Time)
    requires Run(s, es)
    decreases |es|
  {
    es == [] ||
    ((Touches(s, es[0], id) ==> now < s.txns[es[0].pid].now + s.txns[es[0].pid].idleTtl)
     && TouchesBeyond(Step(s, es[0]), es[1..], id, now))
  }

  lemma {:induction false} IdleStaysAhead(s: State, es: seq<Event>, id: Uuid, now: Time)
    requires Run(s, es) && id in s.origins && TouchesBeyond(s, es, id, now)
    requires id in s.rows ==> now < s.rows[id].absolute && now < s.rows[id].idle
    ensures id in After(s, es).rows ==> now < After(s, es).rows[id].idle
    decreases |es|
  {
    if es != [] {
      OnlyTouchesMoveIdle(s, es[0], id);
      IdleStaysAhead(Step(s, es[0]), es[1..], id, now);
    }
  }

  /** With touches that reach beyond its start, as they do when they start within one idle time of it,
      a bulk revocation leaves no session of its snapshot un-revoked. */
  lemma SnapshotIsRevokedOrPurged(s: State, sel: Event, es: seq<Event>, id: Uuid)
    requires Bulk(s, sel, es) && id in ActiveOf(s.rows, sel.now, sel.user, sel.tenant)
    requires TouchesBeyond(Step(s, sel), es, id, sel.now)
    ensures var t := AfterBulk(s, sel, es).rows; id in t ==> t[id].revokedAt.Some?
  {
    StepKeepsInv(s, sel);
    SnapshotIsReached(s, sel, es, id);
    IdleStaysAhead(Step(s, sel), es, id, sel.now);
  }

  lemma UnexpiredRowIsReached(s: State, sel: Event, es: seq<Event>, id: Uuid)
    requires Bulk(s, sel, es) && id in s.rows && !Expired(s.rows[id], sel.now)
    ensures id !in ActiveOf(AfterBulk(s, sel, es).rows, sel.now, sel.user, sel.tenant)
  {
    StepKeepsInv(s, sel);
    if id in ActiveOf(s.rows, sel.now, sel.user, sel.tenant) {
      SnapshotIsReached(s, sel, es, id);
    } else {
      RunAdvances(Step(s, sel), es);
      assert id in Step(s, sel).origins;
    }
  }

  /** A session of that user and tenant that is still active was committed after the snapshot, or had
      already expired in it. */
  lemma SurvivorIsNewerOrRevived(s: State, sel: Event, es: seq<Event>, id: Uuid)
    requires Bulk(s, sel, es) && id in ActiveOf(AfterBulk(s, sel, es).rows, sel.now, sel.user, sel.tenant)
    ensures id !in s.rows || Expired(s.rows[id], sel.now)
  {
    if id in s.rows && !Expired(s.rows[id], sel.now) {
      UnexpiredRowIsReached(s, sel, es, id);
    }
  }

  // ---- Which events leave a session active --------------------------------------------------------------

  /** The row `id` holds a session of that user and tenant, active at the start of the revocation. */
  predicate ActiveTo(t: Table, id: Uuid, sel: Event)
    requires sel.RevokeAllSelect?
  {
    id in ActiveOf(t, sel.now, sel.user, sel.tenant)
  }

  /** A login of that user and tenant that outlasts the start of the revocation. */
  ghost predicate LogsIn(s: State, e: Event, sel: Event, id: Uuid)
    requires Enabled(s, e) && sel.RevokeAllSelect?
  {
    && e.CreateSession? && e.id == id && ReplyTo(s, e).Minted?
    && e.login.userId == sel.user && e.login.tenantId == sel.tenant
    && sel.now < e.now + e.login.absoluteTtl && sel.now < e.now + e.login.idleTtl
  }

  /** A rotation that mints a session outlasting it from a row of theirs. */
  ghost predicate RotatesIn(s: State, e: Event, sel: Event, id: Uuid)
    requires Enabled(s, e) && sel.RevokeAllSelect?
  {
    && e.RotateCommit? && e.newId == id && ReplyTo(s, e).Minted?
    && var x := s.txns[e.pid];
    && x.read.userId == sel.user && x.read.tenantId == sel.tenant
    && sel.now < x.read.absolute && sel.now < x.now + e.rotation.idleTtl
  }

  /** A touch that brings an un-revoked row of theirs, idle at the start of the revocation, back past it. */
  ghost predicate Revives(s: State, e: Event, sel: Event, id: Uuid)
    requires Enabled(s, e) && sel.RevokeAllSelect?
  {
    && Touches(s, e, id) && Live(s.rows, id)
    && s.rows[id].userId == sel.user && s.rows[id].tenantId == sel.tenant
    && s.rows[id].idle <= sel.now < s.rows[id].absolute && sel.now < s.txns[e.pid].now + s.txns[e.pid].idleTtl
  }

  ghost predicate Brings(s: State, e: Event, sel: Event, id: Uuid)
    requires Enabled(s, e) && sel.RevokeAllSelect?
  {
    LogsIn(s, e, sel, id) || RotatesIn(s, e, sel, id) || Revives(s, e, sel, id)
  }

  lemma CreateBringsIff(s: State, e: Event, sel: Event, id: Uuid)
    requires Inv(s) && Enabled(s, e) && e.CreateSession? && sel.RevokeAllSelect?
    ensures ActiveTo(Step(s, e).rows, id, sel) && !ActiveTo(s.rows, id, sel) <==> LogsIn(s, e, sel, id)
  {
  }

  lemma RotateBringsIff(s: State, e: Event, sel: Event, id: Uuid)
    requires Inv(s) && Enabled(s, e) && e.RotateCommit? && sel.RevokeAllSelect?
    ensures ActiveTo(Step(s, e).rows, id, sel) && !ActiveTo(s.rows, id, sel) <==> RotatesIn(s, e, sel, id)
  {
    assert Holds(s.txns, e.pid, s.txns[e.pid].id);
  }

  lemma TouchBringsIff(s: State, e: Event, sel: Event, id: Uuid)
    requires Enabled(s, e) && e.TouchUpdate? && sel.RevokeAllSelect?
    ensures ActiveTo(Step(s, e).rows, id, sel) && !ActiveTo(s.rows, id, sel) <==> Revives(s, e, sel, id)
  {
  }

  lemma OthersBringNothing(s: State, e: Event, sel: Event, id: Uuid)
    requires Enabled(s, e) && !e.CreateSession? && !e.RotateCommit? && !e.TouchUpdate? && sel.RevokeAllSelect?
    ensures ActiveTo(Step(s, e).rows, id, sel) ==> ActiveTo(s.rows, id, sel)
  {
  }

  /** Exactly these events make a session active that was not. */
  lemma StepBringsIff(s: State, e: Event, sel: Event, id: Uuid)
    requires Inv(s) && Enabled(s, e) && sel.RevokeAllSelect?
    ensures ActiveTo(Step(s, e).rows, id, sel) && !ActiveTo(s.rows, id, sel) <==> Brings(s, e, sel, id)
  {
    if e.CreateSession? {
      CreateBringsIff(s, e, sel, id);
    } else if e.RotateCommit? {
      RotateBringsIff(s, e, sel, id);
    } else if e.TouchUpdate? {
      TouchBringsIff(s, e, sel, id);
    } else {
      OthersBringNothing(s, e, sel, id);
    }
  }

  ghost predicate StaysActive(s: State, es: seq<Event>, sel: Event, id: Uuid)
    requires Run(s, es) && sel.RevokeAllSelect?
    decreases |es|
  {
    ActiveTo(s.rows, id, sel) && (es == [] || StaysActive(Step(s, es[0]), es[1..], sel, id))
  }

  /** Some event of the run brings the session, and it stays active to the end. */
  ghost predicate BroughtToStay(s: State, es: seq<Event>, sel: Event, id: Uuid)
    requires Run(s, es) && sel.RevokeAllSelect?
    decreases |es|
  {
    es != [] &&
    ((Brings(s, es[0], sel, id) && StaysActive(Step(s, es[0]), es[1..], sel, id))
     || BroughtToStay(Step(s, es[0]), es[1..], sel, id))
  }

  lemma {:induction false} ActiveAtEndIff(s: State, es: seq<Event>, sel: Event, id: Uuid)
    requires Inv(s) && Run(s, es) && sel.RevokeAllSelect?
    ensures ActiveTo(After(s, es).rows, id, sel) <==> StaysActive(s, es, sel, id) || BroughtToStay(s, es, sel, id)
    decreases |es|
  {
    if es != [] {
      StepKeepsInv(s, es[0]);
      StepBringsIff(s, es[0], sel, id);
      ActiveAtEndIff(Step(s, es[0]), es[1..], sel, id);
    }
  }

  lemma CommitSparesNewcomers(s: State, sel: Event, es: seq<Event>)
    requires Bulk(s, sel, es)
    ensures forall id :: ActiveTo(AfterBulk(s, sel, es).rows, id, sel) <==>
                           ActiveTo(After(Step(s, sel), es).rows, id, sel) && !ActiveTo(s.rows, id, sel)
  {
    TxnStays(Step(s, sel), es, sel.pid);
  }

  /** "Log out everywhere", event by event: a session is left active exactly when it was not active at the
      snapshot and a login, a rotation or a reviving touch that committed meanwhile brought it to stay. */
  lemma LeftActiveIff(s: State, sel: Event, es: seq<Event>, id: Uuid)
    requires Bulk(s, sel, es)
    ensures ActiveTo(AfterBulk(s, sel, es).rows, id, sel)
            <==> !ActiveTo(s.rows, id, sel) && BroughtToStay(Step(s, sel), es, sel, id)
  {
    StepKeepsInv(s, sel);
    CommitSparesNewcomers(s, sel, es);
    ActiveAtEndIff(Step(s, sel), es, sel, id);
    assert StaysActive(Step(s, sel), es, sel, id) ==> ActiveTo(s.rows, id, sel);
  }

  /** So it is complete exactly when no such event brought a session that was not in the snapshot. */
  lemma BulkIsCompleteIff(s: State, sel: Event, es: seq<Event>)
    requires Bulk(s, sel, es)
    ensures ActiveOf(AfterBulk(s, sel, es).rows, sel.now, sel.user, sel.tenant) == {}
            <==> forall id :: BroughtToStay(Step(s, sel), es, sel, id) ==> ActiveTo(s.rows, id, sel)
  {
    var left := ActiveOf(AfterBulk(s, sel, es).rows, sel.now, sel.user, sel.tenant);
    forall id: Uuid
      ensures id in left <==> !ActiveTo(s.rows, id, sel) && BroughtToStay(Step(s, sel), es, sel, id)
    {
      LeftActiveIff(s, sel, es, id);
    }
    if left != {} {
      var id :| id in left;
      assert BroughtToStay(Step(s, sel), es, sel, id) && !ActiveTo(s.rows, id, sel);
    }
  }

  ghost predicate BringsNone(s: State, es: seq<Event>, sel: Event)
    requires Run(s, es) && sel.RevokeAllSelect?
    decreases |es|
  {
    es == [] || ((forall id :: !Brings(s, es[0], sel, id)) && BringsNone(Step(s, es[0]), es[1..], sel))
  }

  lemma {:induction false} BringsNoneToStay(s: State, es: seq<Event>, sel: Event, id: Uuid)
    requires Run(s, es) && sel.RevokeAllSelect? && BringsNone(s, es, sel)
    ensures !BroughtToStay(s, es, sel, id)
    decreases |es|
  {
    if es != [] {
      BringsNoneToStay(Step(s, es[0]), es[1..], sel, id);
    }
  }

  /** In particular, when no event in between is a login, a rotation or a reviving touch of theirs. */
  lemma UnopposedBulkIsComplete(s: State, sel: Event, es: seq<Event>)
    requires Bulk(s, sel, es) && BringsNone(Step(s, sel), es, sel)
    ensures ActiveOf(AfterBulk(s, sel, es).rows, sel.now, sel.user, sel.tenant) == {}
  {
    forall id: Uuid
      ensures !BroughtToStay(Step(s, sel), es, sel, id)
    {
      BringsNoneToStay(Step(s, sel), es, sel, id);
    }
    BulkIsCompleteIff(s, sel, es);
  }

  /** With nothing in between and no row locked, it is one call of revoke_all_user_sessions. */
  lemma UndisturbedRevokeAllIsRevokeAll(s: State, sel: Event)
    requires sel.RevokeAllSelect? && Enabled(s, sel) && AllFree(s, ActiveOf(s.rows, sel.now, sel.user, sel.tenant))
    ensures var m, gone := Step(s, sel), ActiveOf(s.rows, sel.now, sel.user, sel.tenant);
            && Enabled(m, RevokeAllCommit(sel.pid))
            && Step(m, RevokeAllCommit(sel.pid)).rows == MarkRevoked(s.rows, gone, sel.now)
            && ReplyTo(m, RevokeAllCommit(sel.pid)) == Counted(|gone|)
  {
    var m, gone := Step(s, sel), ActiveOf(s.rows, sel.now, sel.user, sel.tenant);
    assert forall p, id :: Holds(m.txns, p, id) ==> Holds(s.txns, p, id);
    assert gone * ActiveOf(m.rows, sel.now, sel.user, sel.tenant) == gone;
  }

  lemma RevocationMisses(s: State, n: Rotation)
    requires s.rows == map[0 := SOMEONES_ROW.(revokedAt := Some(1)), 1 := SuccessorRow(SOMEONES_ROW, 0, 1, n)]
    requires s.txns == map[1 := Revoking(2, 1, 1, {0})] && n.idleTtl == 10
    ensures Enabled(s, RevokeAllCommit(1)) && ReplyTo(s, RevokeAllCommit(1)) == Counted(0)
    ensures Step(s, RevokeAllCommit(1)).rows == s.rows && 1 in ActiveOf(s.rows, 2, 1, 1)
  {
    assert StillActive(s.rows, s.txns[1]) == {};
  }

  /** What it misses: the successor of a rotation that held the lock while the revocation waited for it.
      The login is live afterwards, and the count is 0. */
  lemma SuccessorOutlivesRevokeAll() returns (es: seq<Event>)
    ensures Run(EMPTY, es) && FreshRun(EMPTY, es) && Enabled(After(EMPTY, es), RevokeAllCommit(1))
    ensures var m := After(EMPTY, es); var u := Step(m, RevokeAllCommit(1));
            && m.txns[1].snapshot == {0} && ReplyTo(m, RevokeAllCommit(1)) == Counted(0)
            && Live(u.rows, 1) && u.rows[1].rotatedFrom == Some(0)
            && 1 in ActiveOf(u.rows, m.txns[1].now, SOMEONE.userId, SOMEONE.tenantId)
  {
    var n := Rotation(8, Tokens("", "", None), 10);
    var e1, e2 := CreateSession(0, 0, SOMEONE, true, true), RotateLock(0, 1, 7);
    var e3, e4 := RevokeAllSelect(1, 2, 1, 1), RotateCommit(0, 1, n);
    var s1 := SomeoneLogsIn();
    var s2 := RotateStarted(s1, 0, 1, 7);
    assert s2.txns == map[0 := Rotating(1, 0, SOMEONES_ROW)];
    assert ActiveOf(s2.rows, 2, 1, 1) == {0};
    var s3 := s2.(txns := s2.txns[1 := Revoking(2, 1, 1, {0})]);
    assert s3 == Step(s2, e3);
    var s4 := RotationOvertakes(s3, n);
    Prepend(s3, e4, []);
    Prepend(s2, e3, [e4]);
    Prepend(s1, e2, [e3] + [e4]);
    Prepend(EMPTY, e1, [e2] + ([e3] + [e4]));
    es := [e1] + ([e2] + ([e3] + [e4]));
    assert [e4] + [] == [e4];
    RevocationMisses(s4, n);
  }

  /** The rotation commits while the revocation waits. */
  lemma RotationOvertakes(s: State, n: Rotation) returns (t: State)
    requires s.rows == map[0 := SOMEONES_ROW] && s.origins.Keys == {0} && s.seen == {7}
    requires s.txns == map[0 := Rotating(1, 0, SOMEONES_ROW), 1 := Revoking(2, 1, 1, {0})]
    requires n.newHash == 8 && n.idleTtl == 10
    ensures Enabled(s, RotateCommit(0, 1, n)) && Fresh(s, RotateCommit(0, 1, n)) && t == Step(s, RotateCommit(0, 1, n))
    ensures t.rows == map[0 := SOMEONES_ROW.(revokedAt := Some(1)), 1 := SuccessorRow(SOMEONES_ROW, 0, 1, n)]
    ensures t.txns == map[1 := Revoking(2, 1, 1, {0})]
  {
    assert !HashInUse(s.rows, 8);
    t := Step(s, RotateCommit(0, 1, n));
  }

  /** And a session that had idled out at the snapshot: a touch that had read it in time brings it back
      before the commit, with no login and no rotation. The count is 0 again. */
  lemma TouchOutlivesRevokeAll() returns (es: seq<Event>)
    ensures Run(EMPTY, es) && FreshRun(EMPTY, es) && Enabled(After(EMPTY, es), RevokeAllCommit(1))
    ensures var m := After(EMPTY, es); var u := Step(m, RevokeAllCommit(1));
            && m.txns[1].snapshot == {} && ReplyTo(m, RevokeAllCommit(1)) == Counted(0)
            && 0 in ActiveOf(u.rows, m.txns[1].now, SOMEONE.userId, SOMEONE.tenantId)
  {
    var e1, e2 := CreateSession(0, 0, SOMEONE, true, true), TouchSelect(0, 5, 7, 10);
    var e3, e4 := RevokeAllSelect(1, 12, 1, 1), TouchUpdate(0);
    var s1 := SomeoneLogsIn();
    var s2 := TouchSelected(s1, 0, 5, 7, 10);
    assert s2.txns == map[0 := Touching(5, 0, 10)];
    assert ActiveOf(s2.rows, 12, 1, 1) == {};
    var s3 := s2.(txns := s2.txns[1 := Revoking(12, 1, 1, {})]);
    assert s3 == Step(s2, e3);
    var s4 := TouchRevives(s3);
    Prepend(s3, e4, []);
    Prepend(s2, e3, [e4]);
    Prepend(s1, e2, [e3] + [e4]);
    Prepend(EMPTY, e1, [e2] + ([e3] + [e4]));
    es := [e1] + ([e2] + ([e3] + [e4]));
    assert [e4] + [] == [e4];
  }

  lemma TouchRevives(s: State) returns (t: State)
    requires s.rows == map[0 := SOMEONES_ROW]
    requires s.txns == map[0 := Touching(5, 0, 10), 1 := Revoking(12, 1, 1, {})]
    ensures Enabled(s, TouchUpdate(0)) && Fresh(s, TouchUpdate(0)) && t == Step(s, TouchUpdate(0))
    ensures t.txns == map[1 := Revoking(12, 1, 1, {})] && Enabled(t, RevokeAllCommit(1))
    ensures ReplyTo(t, RevokeAllCommit(1)) == Counted(0)
    ensures 0 in ActiveOf(Step(t, RevokeAllCommit(1)).rows, 12, 1, 1)
  {
    t := Step(s, TouchUpdate(0));
    assert t.rows[0] == SOMEONES_ROW.(idle := 15, lastSeenAt := 5);
    assert StillActive(t.rows, t.txns[1]) == {};
  }
}
