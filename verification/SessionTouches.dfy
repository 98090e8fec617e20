/** Touches: how long a session that is used lives, and when a touch answers a null expiry. */
module SessionTouches {
  import opened Wrappers
  import opened SessionTable
  import opened SessionProtocol
  import opened SessionSafety

  // ---- The sliding window -------------------------------------------------------------------------

  /** `e` is the UPDATE of a touch of row `id`. */
  ghost predicate Touches(s: State, e: Event, id: Uuid)
    requires Enabled(s, e)
  {
    e.TouchUpdate? && s.txns[e.pid].id == id
  }

  /** When the last touch of the row in a run started; `last` if there is none. */
  ghost function LastTouch(s: State, es: seq<Event>, id: Uuid, last: Time): Time
    requires Run(s, es)
    decreases |es|
  {
    if es == [] then last
    else LastTouch(Step(s, es[0]), es[1..], id, if Touches(s, es[0], id) then s.txns[es[0].pid].now else last)
  }

  /** Every touch of the row asks for the same idle time. */
  ghost predicate OneTtl(s: State, es: seq<Event>, id: Uuid, ttl: int)
    requires Run(s, es)
    decreases |es|
  {
    es == [] ||
    ((Touches(s, es[0], id) ==> s.txns[es[0].pid].idleTtl == ttl) && OneTtl(Step(s, es[0]), es[1..], id, ttl))
  }

  ghost predicate IdlesFrom(s: State, id: Uuid, last: Time, ttl: int) {
    id in s.rows ==> s.rows[id].idle == Least(last + ttl, s.rows[id].absolute)
  }

  /** Only a touch moves the idle expiry of a row; nothing moves its absolute expiry or brings it back. */
  lemma OnlyTouchesMoveIdle(s: State, e: Event, id: Uuid)
    requires Enabled(s, e) && id in s.origins
    ensures id in Step(s, e).rows ==> id in s.rows
    ensures id in Step(s, e).rows ==>
              var r, q := s.rows[id], Step(s, e).rows[id];
              && q.absolute == r.absolute
              && (Touches(s, e, id) ==> q.idle == Least(s.txns[e.pid].now + s.txns[e.pid].idleTtl, r.absolute))
              && (!Touches(s, e, id) ==> q.idle == r.idle)
    ensures id in Step(s, e).origins
  {
  }

  lemma {:induction false} IdleFollowsLastTouch(s: State, es: seq<Event>, id: Uuid, last: Time, ttl: int)
    requires Run(s, es) && id in s.origins && IdlesFrom(s, id, last, ttl) && OneTtl(s, es, id, ttl)
    ensures IdlesFrom(After(s, es), id, LastTouch(s, es, id, last), ttl)
    decreases |es|
  {
    if es != [] {
      var next := if Touches(s, es[0], id) then s.txns[es[0].pid].now else last;
      OnlyTouchesMoveIdle(s, es[0], id);
      IdleFollowsLastTouch(Step(s, es[0]), es[1..], id, next, ttl);
    }
  }

  lemma LiveResolvesIff(t: State, id: Uuid, now: Time, pid: Pid, ttl: int)
    requires UniqueHashes(t.rows) && Live(t.rows, id) && pid !in t.txns
    ensures ReplyTo(t, GetSession(now, t.rows[id].tokenHash)) == Resolved(t.rows[id]) <==> !Expired(t.rows[id], now)
    ensures ReplyTo(t, TouchSelect(pid, now, t.rows[id].tokenHash, ttl)) == InProgress <==> !Expired(t.rows[id], now)
  {
    FindUnique(t.rows, id);
  }

  /** A session that a run leaves un-revoked, from any state in which its idle expiry is what a touch,
      a login or a rotation at `last` would have set: it resolves at exactly the times before its
      absolute expiry and within one idle time of its last touch. */
  lemma SessionResolvesIff(s: State, es: seq<Event>, id: Uuid, last: Time, ttl: int, now: Time, pid: Pid)
    requires Inv(s) && Run(s, es) && id in s.rows && IdlesFrom(s, id, last, ttl) && OneTtl(s, es, id, ttl)
    requires Live(After(s, es).rows, id) && pid !in After(s, es).txns
    ensures var t, h := After(s, es), s.rows[id].tokenHash;
            var inTime := now < s.rows[id].absolute && now < LastTouch(s, es, id, last) + ttl;
            && (ReplyTo(t, GetSession(now, h)) == Resolved(t.rows[id]) <==> inTime)
            && (ReplyTo(t, TouchSelect(pid, now, h, ttl)) == InProgress <==> inTime)
  {
    RunKeepsInv(s, es);
    RunAdvances(s, es);
    IdleFollowsLastTouch(s, es, id, last, ttl);
    assert RowKept(s.rows[id], After(s, es).rows[id]);
    LiveResolvesIff(After(s, es), id, now, pid, ttl);
  }

  /** So for a login, whatever else runs: touches at gaps shorter than the idle time keep it alive, each
      of them succeeding, up to the absolute expiry, and a longer gap ends it. */
  lemma SlidingWindowIff(s: State, login: Event, es: seq<Event>, now: Time, pid: Pid)
    requires Reached(s) && Enabled(s, login) && login.CreateSession? && ReplyTo(s, login).Minted?
    requires Run(Step(s, login), es)
    ensures var t, h, ttl := After(Step(s, login), es), login.login.tokenHash, login.login.idleTtl;
            var inTime := now < login.now + login.login.absoluteTtl
                          && now < LastTouch(Step(s, login), es, login.id, login.now) + ttl;
            Live(t.rows, login.id) && pid !in t.txns && OneTtl(Step(s, login), es, login.id, ttl) ==>
              && (ReplyTo(t, GetSession(now, h)) == Resolved(t.rows[login.id]) <==> inTime)
              && (ReplyTo(t, TouchSelect(pid, now, h, ttl)) == InProgress <==> inTime)
  {
    LoginStartsWindow(s, login);
    WindowOfLogin(Step(s, login), es, login.id, login.now, login.login, now, pid);
  }

  lemma LoginStartsWindow(s: State, login: Event)
    requires Reached(s) && Enabled(s, login) && login.CreateSession? && ReplyTo(s, login).Minted?
    ensures Inv(Step(s, login)) && login.id in Step(s, login).rows
    ensures Step(s, login).rows[login.id] == LoginRow(login.now, login.login)
  {
    ReachedInv(s);
    StepKeepsInv(s, login);
  }

  lemma WindowOfLogin(s: State, es: seq<Event>, id: Uuid, at: Time, l: Login, now: Time, pid: Pid)
    requires Inv(s) && Run(s, es) && id in s.rows && s.rows[id] == LoginRow(at, l)
    ensures var t := After(s, es);
            var inTime := now < at + l.absoluteTtl && now < LastTouch(s, es, id, at) + l.idleTtl;
            Live(t.rows, id) && pid !in t.txns && OneTtl(s, es, id, l.idleTtl) ==>
              && (ReplyTo(t, GetSession(now, l.tokenHash)) == Resolved(t.rows[id]) <==> inTime)
              && (ReplyTo(t, TouchSelect(pid, now, l.tokenHash, l.idleTtl)) == InProgress <==> inTime)
  {
    if Live(After(s, es).rows, id) && pid !in After(s, es).txns && OneTtl(s, es, id, l.idleTtl) {
      SessionResolvesIff(s, es, id, at, l.idleTtl, now, pid);
    }
  }

  // ---- Null answers ---------------------------------------------------------------------------------

  predicate Purges(e: Event, id: Uuid) { e.Purge? && id in e.ids }

  predicate AnyPurges(es: seq<Event>, id: Uuid) { exists e :: e in es && Purges(e, id) }

  lemma StepRemovesIffPurges(s: State, e: Event, id: Uuid)
    requires Enabled(s, e) && id in s.rows && id in s.origins
    ensures id in Step(s, e).rows <==> !Purges(e, id)
  {
  }

  lemma {:induction false} GoneStaysGone(s: State, es: seq<Event>, id: Uuid)
    requires Run(s, es) && id in s.origins && id !in s.rows
    ensures id !in After(s, es).rows
    decreases |es|
  {
    if es != [] {
      OnlyTouchesMoveIdle(s, es[0], id);
      GoneStaysGone(Step(s, es[0]), es[1..], id);
    }
  }

  lemma {:induction false} RowGoneIffPurged(s: State, es: seq<Event>, id: Uuid)
    requires Run(s, es) && id in s.rows && id in s.origins
    ensures id !in After(s, es).rows <==> AnyPurges(es, id)
    decreases |es|
  {
    if es != [] {
      var t := Step(s, es[0]);
      assert es[0] in es && es == [es[0]] + es[1..];
      StepRemovesIffPurges(s, es[0], id);
      OnlyTouchesMoveIdle(s, es[0], id);
      if Purges(es[0], id) {
        GoneStaysGone(t, es[1..], id);
      } else {
        RowGoneIffPurged(t, es[1..], id);
      }
    }
  }

  /** A touch that got past its checks answers a null expiry exactly when a purge took its row before
      its UPDATE, whatever else ran in between. */
  lemma TouchAnswersNullIffPurged(s: State, sel: Event, es: seq<Event>)
    requires Inv(s) && sel.TouchSelect? && Enabled(s, sel) && ReplyTo(s, sel) == InProgress
    requires Run(Step(s, sel), es) && NoneEnds(es, sel.pid) && Enabled(After(Step(s, sel), es), TouchUpdate(sel.pid))
    ensures Find(s.rows, sel.h).Some?
    ensures ReplyTo(After(Step(s, sel), es), TouchUpdate(sel.pid)) == Slid(None)
            <==> AnyPurges(es, Find(s.rows, sel.h).value)
  {
    var t := Step(s, sel);
    StepKeepsInv(s, sel);
    TxnStays(t, es, sel.pid);
    RowGoneIffPurged(t, es, Find(s.rows, sel.h).value);
  }

  /** A run grows at the front. */
  lemma Prepend(s: State, e: Event, es: seq<Event>)
    requires Enabled(s, e) && Run(Step(s, e), es)
    ensures Run(s, [e] + es) && After(s, [e] + es) == After(Step(s, e), es)
    ensures Fresh(s, e) && FreshRun(Step(s, e), es) ==> FreshRun(s, [e] + es)
  {
    assert ([e] + es)[0] == e && ([e] + es)[1..] == es;
  }

  const SOMEONE := Login(7, 1, 1, Tokens("", "", None), 100, 10, Audit(None, None))

  const SOMEONES_ROW := LoginRow(0, SOMEONE)

  /** The first step of the runs below. */
  lemma SomeoneLogsIn() returns (s: State)
    ensures Enabled(EMPTY, CreateSession(0, 0, SOMEONE, true, true))
    ensures Fresh(EMPTY, CreateSession(0, 0, SOMEONE, true, true))
    ensures s == Step(EMPTY, CreateSession(0, 0, SOMEONE, true, true))
    ensures s.rows == map[0 := SOMEONES_ROW] && s.txns == map[] && s.seen == {7} && s.origins.Keys == {0}
    ensures Find(s.rows, 7) == Some(0)
  {
    s := Step(EMPTY, CreateSession(0, 0, SOMEONE, true, true));
    assert HasHash(s.rows, 0, 7);
  }

  /** It does happen: a login, a touch started while the session is active, a later purge, the UPDATE. */
  lemma NullTouchIsReached() returns (es: seq<Event>)
    ensures Run(EMPTY, es) && FreshRun(EMPTY, es) && Enabled(After(EMPTY, es), TouchUpdate(0))
    ensures ReplyTo(After(EMPTY, es), TouchUpdate(0)) == Slid(None)
  {
    var e1, e2, e3 := CreateSession(0, 0, SOMEONE, true, true), TouchSelect(0, 5, 7, 10), Purge(200, 0, {0});
    var s1 := SomeoneLogsIn();
    var s2 := TouchSelected(s1, 0, 5, 7, 10);
    assert s2.txns == map[0 := Touching(5, 0, 10)];
    assert PurgeableIn(s2.rows, 200, 0) == {0};
    var s3 := Step(s2, e3);
    Prepend(s2, e3, []);
    Prepend(s1, e2, [e3]);
    Prepend(EMPTY, e1, [e2] + [e3]);
    es := [e1] + ([e2] + [e3]);
    assert [e3] + [] == [e3];
  }

  /** The purge reaches no row of a touch in progress: it starts no later than its grace window after
      the deadline of the login and, where the row has been revoked meanwhile, after that. */
  ghost predicate Patient(s: State, e: Event) {
    e.Purge? ==>
      forall p :: p in s.txns && s.txns[p].Touching? && s.txns[p].id in s.rows && s.txns[p].id in s.origins ==>
        && e.now <= Deadline(s.origins[s.txns[p].id]) + e.grace
        && (s.rows[s.txns[p].id].revokedAt.Some? ==> e.now <= s.rows[s.txns[p].id].revokedAt.value + e.grace)
  }

  ghost predicate PatientRun(s: State, es: seq<Event>)
    requires Run(s, es)
    decreases |es|
  {
    es == [] || (Patient(s, es[0]) && PatientRun(Step(s, es[0]), es[1..]))
  }

  /** Only a purge that is not patient can take the row of a touch in progress, and one whose `ids`
      leave out no purgeable row does. */
  lemma ImpatientPurgeTakesTouchedRow(s: State, e: Event)
    requires Inv(s) && Enabled(s, e) && e.Purge?
    ensures (exists p :: p in s.txns && s.txns[p].Touching? && s.txns[p].id in e.ids) ==> !Patient(s, e)
    ensures e.ids == PurgeableIn(s.rows, e.now, e.grace) && !Patient(s, e) ==>
              exists p :: p in s.txns && s.txns[p].Touching? && s.txns[p].id in e.ids
  {
  }

  ghost predicate TouchedPresent(s: State) { forall p :: p in s.txns && s.txns[p].Touching? ==> s.txns[p].id in s.rows }

  lemma PatientStepKeepsRow(s: State, e: Event, p: Pid)
    requires Inv(s) && Enabled(s, e) && Patient(s, e) && p in s.txns && s.txns[p].Touching? && s.txns[p].id in s.rows
    ensures s.txns[p].id in Step(s, e).rows
  {
    if e.Purge? {
      ImpatientPurgeTakesTouchedRow(s, e);
    }
    StepRemovesIffPurges(s, e, s.txns[p].id);
  }

  /** A touch in progress after an event was in progress before it, or has just read its row. */
  lemma TouchStarted(s: State, e: Event, p: Pid)
    requires Enabled(s, e) && p in Step(s, e).txns && Step(s, e).txns[p].Touching?
    ensures (p in s.txns && s.txns[p] == Step(s, e).txns[p]) || Step(s, e).txns[p].id in Step(s, e).rows
  {
  }

  lemma PatientStepKeepsTouched(s: State, e: Event)
    requires Inv(s) && Enabled(s, e) && Patient(s, e) && TouchedPresent(s)
    ensures TouchedPresent(Step(s, e))
  {
    forall p | p in Step(s, e).txns && Step(s, e).txns[p].Touching?
      ensures Step(s, e).txns[p].id in Step(s, e).rows
    {
      TouchStarted(s, e, p);
      if p in s.txns && s.txns[p] == Step(s, e).txns[p] {
        PatientStepKeepsRow(s, e, p);
      }
    }
  }

  lemma {:induction false} PatientRunKeepsTouched(s: State, es: seq<Event>)
    requires Inv(s) && Run(s, es) && PatientRun(s, es) && TouchedPresent(s)
    ensures TouchedPresent(After(s, es))
    decreases |es|
  {
    if es != [] {
      PatientStepKeepsTouched(s, es[0]);
      StepKeepsInv(s, es[0]);
      PatientRunKeepsTouched(Step(s, es[0]), es[1..]);
    }
  }

  /** As long as every purge is patient, every touch that gets past its checks answers an expiry. */
  lemma PatientPurgesLeaveNoNull(es: seq<Event>, pid: Pid)
    requires Run(EMPTY, es) && PatientRun(EMPTY, es) && Enabled(After(EMPTY, es), TouchUpdate(pid))
    ensures ReplyTo(After(EMPTY, es), TouchUpdate(pid)).Slid? && ReplyTo(After(EMPTY, es), TouchUpdate(pid)).idle.Some?
  {
    EmptyInv();
    PatientRunKeepsTouched(EMPTY, es);
  }
}
