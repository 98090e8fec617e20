/** What holds of every run of racing app.map_identity calls. */
module IdentitySafety {
  import opened Wrappers
  import opened IdentityTables
  import opened IdentityProvisioning

  // ---- Runs ---------------------------------------------------------------------------------------

  ghost predicate Run(s: State, es: seq<Event>)
    decreases |es|
  {
    es == [] || (Enabled(s, es[0]) && Run(Step(s, es[0]), es[1..]))
  }

  ghost function After(s: State, es: seq<Event>): State
    requires Run(s, es)
    decreases |es|
  {
    if es == [] then s else After(Step(s, es[0]), es[1..])
  }

  lemma {:induction false} RunKeepsInv(s: State, es: seq<Event>)
    requires Inv(s) && Run(s, es)
    ensures Inv(After(s, es))
    decreases |es|
  {
    if es != [] {
      StepKeepsInv(s, es[0]);
      RunKeepsInv(Step(s, es[0]), es[1..]);
    }
  }

  /** Before any call: tables, whatever they hold, and the ids drawn so far. */
  function Opening(d: Db, drawn: set<Uuid>): State { State(d, map[], drawn + d.users.Keys + d.tenants.Keys, map[]) }

  lemma OpeningInv(d: Db, drawn: set<Uuid>)
    requires References(d)
    ensures Inv(Opening(d, drawn))
  {
  }

  // ---- Every racing call is one call of the procedure --------------------------------------------------

  /** The tables the first SELECT of the call that `e` ends saw. */
  ghost function FirstSeen(s: State, e: Event): Db
    requires Enabled(s, e)
  {
    if e.Commit? || e.Choose? then s.txns[e.pid].before else s.db
  }

  /** However calls interleave, a call that answers behaves as app.map_identity run on its own, with
      all its inserts made at the moment it ends. */
  lemma EveryAnswerIsTheProcedures(s: State, e: Event, u: Uuid, t: Uuid)
    requires Inv(s) && Enabled(s, e) && Reply(s, e).Some?
    requires e.Commit? ==> u == s.txns[e.pid].user && t == s.txns[e.pid].tenant
    ensures var (c, a) := Reply(s, e).value; Performs(FirstSeen(s, e), s.db, c, u, t, Step(s, e).db, a)
  {
    if e.Commit? {
      CommitClashesWithNothing(s, e.pid);
    }
  }

  /** A call that knows its user is never stuck: some answer can always be chosen. */
  lemma ChooseNeverBlocks(s: State, p: Pid) returns (a: Answer)
    requires Inv(s) && p in s.txns && s.txns[p].Found?
    ensures Enabled(s, Choose(p, a)) && (a.Mapped? || a.NoActiveTenant?)
  {
    var u := s.txns[p].user;
    assert u in s.db.users;
    var usable := set m | m in s.db.memberships && m.0 == u && Usable(s.db, u, m.1) :: m.1;
    assert forall x: Uuid :: Usable(s.db, u, x) ==> (u, x) in s.db.memberships && (u, x).1 in usable;
    if usable == {} {
      a := NoActiveTenant;
    } else {
      var t := SomeTenantIsBest(s.db, u, usable);
      a := Mapped(u, t, s.db.users[u]);
    }
  }

  // ---- Runs that do happen ----------------------------------------------------------------------------------

  /** A run grows at the front. */
  lemma Prepend(s: State, e: Event, es: seq<Event>)
    requires Enabled(s, e) && Run(Step(s, e), es)
    ensures Run(s, [e] + es) && After(s, [e] + es) == After(Step(s, e), es)
  {
    assert ([e] + es)[0] == e && ([e] + es)[1..] == es;
  }

  /** No call is under way, and the two ids have not been drawn. */
  predicate Idle(s: State, u: Uuid, t: Uuid) { s.txns == map[] && u !in s.drawn && t !in s.drawn && u != t }

  /** A provisioning call that no other comes between goes through and answers with the user and the tenant
      it has made; the tables then hold its four rows. */
  lemma LoneCallProvisions(s: State, p: Pid, c: Call, u: Uuid, t: Uuid) returns (es: seq<Event>)
    requires Idle(s, u, t) && c.provision && c.key !in s.db.identities
    ensures Run(s, es) && Enabled(After(s, es), Commit(p))
    ensures Reply(After(s, es), Commit(p)) == Some((c, Mapped(u, t, c.email)))
    ensures Step(After(s, es), Commit(p)).db == Provision(s.db, c, u, t)
  {
    var s1 := s.(txns := map[p := Missed(c, s.db)]);
    assert Step(s, Lookup(p, c)) == s1;
    var s2 := s1.(txns := map[p := UserInserted(c, s.db, u)], drawn := s.drawn + {u});
    assert Step(s1, InsertUser(p, u)) == s2;
    var s3 := RestInserted(s2, p, t);
    Prepend(s2, InsertRest(p, t), []);
    Prepend(s1, InsertUser(p, u), [InsertRest(p, t)]);
    Prepend(s, Lookup(p, c), [InsertUser(p, u)] + [InsertRest(p, t)]);
    es := [Lookup(p, c)] + ([InsertUser(p, u)] + [InsertRest(p, t)]);
    assert [InsertRest(p, t)] + [] == [InsertRest(p, t)];
    assert s3.txns[p] == Provisioned(c, s.db, u, t);
  }

  /** Two calls that have both missed the identity and inserted their users. */
  predicate Racing(s: State, p: Pid, q: Pid, c: Call, d: Call, u: Uuid, v: Uuid) {
    && p != q && c.key == d.key && c.key !in s.db.identities && u in s.drawn && v in s.drawn
    && s.txns == map[p := UserInserted(c, s.db, u), q := UserInserted(d, s.db, v)]
  }

  /** The call `p` holds the key, and `q` has still to insert it. */
  predicate Held(s: State, p: Pid, q: Pid, c: Call, d: Call, u: Uuid, v: Uuid, t: Uuid, before: Db) {
    && p != q && c.key == d.key && c.key !in s.db.identities && s.db == before
    && s.txns == map[p := Provisioned(c, before, u, t), q := UserInserted(d, before, v)]
  }

  /** Whichever inserts the key first makes the other wait. */
  lemma FirstInsertHolds(s: State, p: Pid, q: Pid, c: Call, d: Call, u: Uuid, v: Uuid, t: Uuid, x: Uuid)
    requires Racing(s, p, q, c, d, u, v) && t !in s.drawn && x !in s.drawn
    ensures Enabled(s, InsertRest(p, t)) && Enabled(s, InsertRest(q, x))
    ensures Held(Step(s, InsertRest(p, t)), p, q, c, d, u, v, t, s.db)
    ensures !Enabled(Step(s, InsertRest(p, t)), InsertRest(q, x))
  {
    var held := RestInserted(s, p, t);
    assert held.txns == map[p := Provisioned(c, s.db, u, t), q := UserInserted(d, s.db, v)];
    assert Holds(held.txns, p, d.key);
  }

  /** Once the holder has committed, the other goes on with its user. */
  lemma RivalFindsWinner(s: State, p: Pid, q: Pid, c: Call, d: Call, u: Uuid, v: Uuid, t: Uuid, x: Uuid, before: Db)
    requires Held(s, p, q, c, d, u, v, t, before) && x !in s.drawn
    ensures Enabled(s, Commit(p)) && Enabled(Step(s, Commit(p)), InsertRest(q, x))
    ensures Step(Step(s, Commit(p)), InsertRest(q, x)).txns == map[q := Found(d, before, u)]
    ensures Step(Step(s, Commit(p)), InsertRest(q, x)).db == Provision(before, c, u, t)
  {
    var done := Committed(s, p);
    assert done.txns == map[q := UserInserted(d, before, v)];
    assert Step(s, Commit(p)) == done && Owner(done.db, d.key) == Some(u);
  }

  /** Had it been aborted, the other would provision. */
  lemma RivalTakesOver(s: State, p: Pid, q: Pid, c: Call, d: Call, u: Uuid, v: Uuid, t: Uuid, x: Uuid, before: Db)
    requires Held(s, p, q, c, d, u, v, t, before) && x !in s.drawn
    ensures Enabled(s, Abort(p)) && Enabled(Step(s, Abort(p)), InsertRest(q, x))
    ensures Step(Step(s, Abort(p)), InsertRest(q, x)).txns == map[q := Provisioned(d, before, v, x)]
    ensures Step(s, Abort(p)).db == before
  {
    var gone := Finish(s, p);
    assert gone.txns == map[q := UserInserted(d, before, v)];
  }

  // ---- One user per identity ------------------------------------------------------------------------------

  lemma StepKeepsOwner(s: State, e: Event, k: Key)
    requires Inv(s) && Enabled(s, e) && Owner(s.db, k).Some?
    ensures Owner(Step(s, e).db, k) == Owner(s.db, k)
  {
    if e.Commit? {
      CommitClashesWithNothing(s, e.pid);
    }
  }

  lemma {:induction false} RunKeepsOwner(s: State, es: seq<Event>, k: Key)
    requires Inv(s) && Run(s, es) && Owner(s.db, k).Some?
    ensures Inv(After(s, es)) && Owner(After(s, es).db, k) == Owner(s.db, k)
    decreases |es|
  {
    if es != [] {
      StepKeepsInv(s, es[0]);
      StepKeepsOwner(s, es[0], k);
      RunKeepsOwner(Step(s, es[0]), es[1..], k);
    }
  }

  ghost predicate Answers(s: State, e: Event, k: Key)
    requires Enabled(s, e)
  {
    Reply(s, e).Some? && Reply(s, e).value.0.key == k
  }

  /** Whoever calls and whatever administrators switch, an identity once answered with a user is
      answered with that user ever after: it is never unknown again, nobody provisions it a second
      time, and no caller sees a unique violation. */
  lemma SameUserAlways(s: State, first: Event, es: seq<Event>, e: Event, k: Key)
    requires Inv(s) && Enabled(s, first) && Answers(s, first, k) && Reply(s, first).value.1.Mapped?
    requires Run(Step(s, first), es)
    requires Enabled(After(Step(s, first), es), e) && Answers(After(Step(s, first), es), e, k)
    ensures var a, b := Reply(s, first).value.1, Reply(After(Step(s, first), es), e).value.1;
            !e.Commit? && (b.NoActiveTenant? || (b.Mapped? && b.user == a.user))
  {
    var t := Step(s, first);
    StepKeepsInv(s, first);
    assert Owner(t.db, k) == Some(Reply(s, first).value.1.user);
    RunKeepsOwner(t, es, k);
    var u := After(t, es);
    if e.Commit? {
      CommitClashesWithNothing(u, e.pid);
    }
  }

  // ---- One tenant per identity, while nothing is switched -----------------------------------------------------

  predicate Quiet(es: seq<Event>) { forall e :: e in es ==> !e.SwitchTenant? && !e.SwitchMembership? }

  /** Two memberships share first place for the user of `k`. */
  ghost predicate TiedFor(d: Db, k: Key) { k in d.identities && Tied(d, d.identities[k].user) }

  /** Both tables hold the same user and the same memberships it could use. */
  ghost predicate SameChoices(d: Db, e: Db, u: Uuid) {
    && u in d.users && u in e.users && e.users[u] == d.users[u]
    && (forall t :: Usable(e, u, t) <==> Usable(d, u, t))
    && (forall t :: Usable(d, u, t) && Usable(e, u, t) ==> e.memberships[(u, t)] == d.memberships[(u, t)])
  }

  /** An event that switches nothing leaves the memberships of a known user as they are. */
  lemma QuietStepKeepsUsable(s: State, e: Event, u: Uuid)
    requires Inv(s) && Enabled(s, e) && Quiet([e]) && u in s.db.users
    ensures SameChoices(s.db, Step(s, e).db, u)
  {
    assert e in [e];
    if e.Commit? {
      CommitClashesWithNothing(s, e.pid);
    }
  }

  lemma SameChoicesSameAnswers(d: Db, e: Db, u: Uuid)
    requires SameChoices(d, e, u)
    ensures Tied(e, u) <==> Tied(d, u)
    ensures forall a :: Resolves(e, u, a) <==> Resolves(d, u, a)
  {
    assert forall x, t :: ComesBefore(e, u, x, t) <==> ComesBefore(d, u, x, t);
    assert forall t :: Best(e, u, t) <==> Best(d, u, t);
  }

  lemma ProvisionedIsNotTied(s: State, p: Pid)
    requires Inv(s) && p in s.txns && s.txns[p].Provisioned?
    ensures var x, d := s.txns[p], Committed(s, p).db;
            && Owner(d, x.call.key) == Some(x.user) && !Tied(d, x.user)
            && Resolves(d, x.user, Mapped(x.user, x.tenant, x.call.email))
  {
    var x, d := s.txns[p], Committed(s, p).db;
    CommitClashesWithNothing(s, p);
    ProvisionMakesHome(s.db, x.call, x.user, x.tenant);
    assert AtHome(d, x.user, Home(x.call.key, x.tenant));
    assert forall t: Uuid :: Usable(d, x.user, t) ==> t == x.tenant;
  }

  lemma QuietStepKeepsUntied(s: State, e: Event, k: Key)
    requires Inv(s) && Enabled(s, e) && Quiet([e]) && !TiedFor(s.db, k)
    ensures !TiedFor(Step(s, e).db, k)
  {
    if k in s.db.identities {
      var u := s.db.identities[k].user;
      StepKeepsOwner(s, e, k);
      QuietStepKeepsUsable(s, e, u);
      SameChoicesSameAnswers(s.db, Step(s, e).db, u);
    } else if e.Commit? && s.txns[e.pid].call.key == k {
      ProvisionedIsNotTied(s, e.pid);
    }
  }

  /** `k` belongs to a user about whom `a` is the only possible answer. */
  ghost predicate Decides(d: Db, k: Key, a: Answer) {
    k in d.identities && Resolves(d, d.identities[k].user, a) && !TiedFor(d, k)
  }

  lemma DecidedAnswerIsOnly(d: Db, k: Key, a: Answer, b: Answer)
    requires Decides(d, k, a) && Resolves(d, d.identities[k].user, b)
    ensures a == b
  {
    var u := d.identities[k].user;
    if a.Mapped? && b.Mapped? {
      assert Best(d, u, a.tenant) && Best(d, u, b.tenant);
    }
  }

  lemma AnswerDecides(s: State, e: Event, k: Key)
    requires Inv(s) && Enabled(s, e) && Answers(s, e, k) && !TiedFor(s.db, k) && !Reply(s, e).value.1.IdentityNotFound?
    ensures Decides(Step(s, e).db, k, Reply(s, e).value.1)
  {
    if e.Commit? {
      ProvisionedIsNotTied(s, e.pid);
    }
  }

  lemma {:induction false} QuietRunKeepsDecision(s: State, es: seq<Event>, k: Key, a: Answer)
    requires Inv(s) && Run(s, es) && Quiet(es) && Decides(s.db, k, a)
    ensures Inv(After(s, es)) && Decides(After(s, es).db, k, a)
    decreases |es|
  {
    if es != [] {
      var e, t := es[0], Step(s, es[0]);
      assert e in es;
      StepKeepsInv(s, e);
      StepKeepsOwner(s, e, k);
      QuietStepKeepsUsable(s, e, s.db.identities[k].user);
      SameChoicesSameAnswers(s.db, t.db, s.db.identities[k].user);
      QuietRunKeepsDecision(t, es[1..], k, a);
    }
  }

  lemma {:induction false} QuietRunKeepsUntied(s: State, es: seq<Event>, k: Key)
    requires Inv(s) && Run(s, es) && Quiet(es) && !TiedFor(s.db, k)
    ensures Inv(After(s, es)) && !TiedFor(After(s, es).db, k)
    decreases |es|
  {
    if es != [] {
      assert es[0] in es;
      StepKeepsInv(s, es[0]);
      QuietStepKeepsUntied(s, es[0], k);
      QuietRunKeepsUntied(Step(s, es[0]), es[1..], k);
    }
  }

  /** In a run from `s` that switches nothing, `first` and later `e` answer about the same identity. */
  ghost predicate TwoAnswers(s: State, es: seq<Event>, first: Event, fs: seq<Event>, e: Event, k: Key) {
    && Run(s, es) && Quiet(es)
    && var m := After(s, es);
    && Enabled(m, first) && Answers(m, first, k) && !Reply(m, first).value.1.IdentityNotFound?
    && Run(Step(m, first), fs) && Quiet(fs)
    && var n := After(Step(m, first), fs);
    && Enabled(n, e) && Answers(n, e, k)
  }

  ghost predicate SameAnswer(s: State, es: seq<Event>, first: Event, fs: seq<Event>, e: Event)
    requires Run(s, es) && Enabled(After(s, es), first) && Run(Step(After(s, es), first), fs)
    requires Enabled(After(Step(After(s, es), first), fs), e)
    requires Reply(After(s, es), first).Some? && Reply(After(Step(After(s, es), first), fs), e).Some?
  {
    Reply(After(s, es), first).value.1 == Reply(After(Step(After(s, es), first), fs), e).value.1
  }

  /** All calls on an identity get the same user, tenant and email, provided its user, if it has one
      already, has no two memberships sharing first place. */
  lemma AnswersAgree(s: State, es: seq<Event>, first: Event, fs: seq<Event>, e: Event, k: Key)
    requires Inv(s) && !TiedFor(s.db, k) && TwoAnswers(s, es, first, fs, e, k)
    ensures SameAnswer(s, es, first, fs, e)
  {
    QuietRunKeepsUntied(s, es, k);
    var m := After(s, es);
    var a := Reply(m, first).value.1;
    StepKeepsInv(m, first);
    AnswerDecides(m, first, k);
    QuietRunKeepsDecision(Step(m, first), fs, k, a);
    var n := After(Step(m, first), fs);
    if e.Commit? {
      CommitClashesWithNothing(n, e.pid);
    } else {
      DecidedAnswerIsOnly(n.db, k, a, Reply(n, e).value.1);
    }
  }

  /** And if two do, two calls one after the other can get different tenants. */
  lemma TieSplitsAnswers(s: State, c: Call, p: Pid) returns (es: seq<Event>, first: Event, fs: seq<Event>, e: Event)
    requires Inv(s) && TiedFor(s.db, c.key) && p !in s.txns
    ensures TwoAnswers(s, es, first, fs, e, c.key) && !SameAnswer(s, es, first, fs, e)
  {
    var u := s.db.identities[c.key].user;
    var t, x :| t != x && Best(s.db, u, t) && Best(s.db, u, x);
    var email := s.db.users[u];
    first, e := Choose(p, Mapped(u, t, email)), Choose(p, Mapped(u, x, email));
    es, fs := [Lookup(p, c)], [Lookup(p, c)];
    var m := LookedUp(s, p, c);
    assert Run(m, []) && After(m, []) == m && es[1..] == [] && After(s, es) == m;
    var n := Step(m, first);
    assert n.db == s.db && n.txns == s.txns;
    var o := LookedUp(n, p, c);
    assert Run(o, []) && After(o, []) == o && After(n, fs) == o;
  }

  /** So answers about an identity agree in every run exactly when nothing is tied for it at the
      start; in particular, always when it is not mapped yet. */
  lemma AnswersAgreeIff(s: State, k: Key, p: Pid)
    requires Inv(s) && p !in s.txns
    ensures (forall es, first, fs, e :: TwoAnswers(s, es, first, fs, e, k) ==> SameAnswer(s, es, first, fs, e))
            <==> !TiedFor(s.db, k)
  {
    if TiedFor(s.db, k) {
      var es, first, fs, e := TieSplitsAnswers(s, Call(k, None, false, 0), p);
      assert TwoAnswers(s, es, first, fs, e, k) && !SameAnswer(s, es, first, fs, e);
    } else {
      forall es, first, fs, e | TwoAnswers(s, es, first, fs, e, k)
        ensures SameAnswer(s, es, first, fs, e)
      {
        AnswersAgree(s, es, first, fs, e, k);
      }
    }
  }

  /** In particular, whatever the tables hold before the first call, as long as their references hold. */
  lemma AnswersAgreeFromAnyTablesIff(d: Db, drawn: set<Uuid>, k: Key)
    requires References(d)
    ensures (forall es, first, fs, e :: TwoAnswers(Opening(d, drawn), es, first, fs, e, k) ==>
               SameAnswer(Opening(d, drawn), es, first, fs, e))
            <==> !TiedFor(d, k)
  {
    OpeningInv(d, drawn);
    AnswersAgreeIff(Opening(d, drawn), k, 0);
  }

  /** And whatever is switched, from any tables, two answers that name a user name the same. */
  lemma SameUserFromAnyTables(d: Db, drawn: set<Uuid>, es: seq<Event>, first: Event, fs: seq<Event>, e: Event, k: Key)
    requires References(d) && Run(Opening(d, drawn), es)
    requires var m := After(Opening(d, drawn), es);
             && Enabled(m, first) && Answers(m, first, k) && Reply(m, first).value.1.Mapped?
             && Run(Step(m, first), fs)
             && Enabled(After(Step(m, first), fs), e) && Answers(After(Step(m, first), fs), e, k)
    ensures var m := After(Opening(d, drawn), es);
            var a, b := Reply(m, first).value.1, Reply(After(Step(m, first), fs), e).value.1;
            !e.Commit? && (b.NoActiveTenant? || (b.Mapped? && b.user == a.user))
  {
    OpeningInv(d, drawn);
    RunKeepsInv(Opening(d, drawn), es);
    SameUserAlways(After(Opening(d, drawn), es), first, fs, e, k);
  }

  // ---- Losers leave nothing behind ------------------------------------------------------------------------

  /** `u` was drawn as an id and belongs to no committed and no pending user row. */
  ghost predicate Discarded(s: State, u: Uuid) {
    u in s.drawn && u !in s.db.users && forall p :: !DraftsUser(s.txns, p, u)
  }

  lemma StepKeepsDiscarded(s: State, e: Event, u: Uuid)
    requires Enabled(s, e) && Discarded(s, u)
    ensures Discarded(Step(s, e), u)
  {
    var t := Step(s, e);
    if e.Commit? {
      assert DraftsUser(s.txns, e.pid, s.txns[e.pid].user);
    }
    assert forall p :: DraftsUser(t.txns, p, u) ==> DraftsUser(s.txns, p, u) || (e == InsertUser(p, u));
  }

  lemma {:induction false} RunKeepsDiscarded(s: State, es: seq<Event>, u: Uuid)
    requires Run(s, es) && Discarded(s, u)
    ensures Discarded(After(s, es), u)
    decreases |es|
  {
    if es != [] {
      StepKeepsDiscarded(s, es[0], u);
      RunKeepsDiscarded(Step(s, es[0]), es[1..], u);
    }
  }

  /** A call that loses the race, or is aborted, never gets its user row into the table; a call that
      loses goes on with the winner's user. */
  lemma LoserLeavesNoUser(s: State, e: Event, es: seq<Event>, u: Uuid)
    requires Inv(s) && Enabled(s, e) && (e.InsertRest? || e.Abort?) && DraftsUser(s.txns, e.pid, u)
    requires e.InsertRest? ==> s.txns[e.pid].call.key in s.db.identities
    requires Run(Step(s, e), es)
    ensures u !in After(Step(s, e), es).db.users
    ensures e.InsertRest? ==>
              && Step(s, e).db == s.db && Step(s, e).txns[e.pid].Found?
              && Step(s, e).txns[e.pid].user == s.db.identities[s.txns[e.pid].call.key].user != u
  {
    var t, loser := Step(s, e), e.pid;
    assert forall p :: DraftsUser(t.txns, p, u) ==> DraftsUser(s.txns, p, u) && p != loser;
    RunKeepsDiscarded(t, es, u);
  }

  // ---- Conservation -----------------------------------------------------------------------------------------

  ghost function CommitCount(es: seq<Event>): nat
    decreases |es|
  {
    if es == [] then 0 else (if es[0].Commit? then 1 else 0) + CommitCount(es[1..])
  }

  lemma NewKeyCounts<K, V>(m: map<K, V>, k: K, v: V)
    requires k !in m
    ensures |m[k := v]| == |m| + 1
  {
    assert m[k := v].Keys == m.Keys + {k};
  }

  lemma ProvisionAddsOneOfEach(d: Db, c: Call, u: Uuid, t: Uuid)
    requires !Clashes(d, c, u, t)
    ensures var e := Provision(d, c, u, t);
            && |e.users| == |d.users| + 1 && |e.identities| == |d.identities| + 1
            && |e.tenants| == |d.tenants| + 1 && |e.memberships| == |d.memberships| + 1
  {
    var e := Provision(d, c, u, t);
    NewKeyCounts(d.users, u, e.users[u]);
    NewKeyCounts(d.identities, c.key, e.identities[c.key]);
    NewKeyCounts(d.tenants, t, e.tenants[t]);
    NewKeyCounts(d.memberships, (u, t), e.memberships[(u, t)]);
  }

  lemma StepConserves(s: State, e: Event)
    requires Inv(s) && Enabled(s, e)
    ensures var d, n := Step(s, e).db, CommitCount([e]);
            && |d.users| == |s.db.users| + n && |d.identities| == |s.db.identities| + n
            && |d.tenants| == |s.db.tenants| + n && |d.memberships| == |s.db.memberships| + n
  {
    assert CommitCount([e]) == if e.Commit? then 1 else 0;
    if e.Commit? {
      var x := s.txns[e.pid];
      CommitClashesWithNothing(s, e.pid);
      ProvisionAddsOneOfEach(s.db, x.call, x.user, x.tenant);
    } else {
      var d := Step(s, e).db;
      assert d.tenants.Keys == s.db.tenants.Keys && d.memberships.Keys == s.db.memberships.Keys;
      assert |d.tenants.Keys| == |s.db.tenants.Keys| && |d.memberships.Keys| == |s.db.memberships.Keys|;
    }
  }

  /** Every run adds as many users as identities, tenants and memberships: one of each for every call
      that commits a provision, and none for any other. */
  lemma {:induction false} ProvisioningConserves(s: State, es: seq<Event>)
    requires Inv(s) && Run(s, es)
    ensures var d, e, n := s.db, After(s, es).db, CommitCount(es);
            && |e.users| == |d.users| + n && |e.identities| == |d.identities| + n
            && |e.tenants| == |d.tenants| + n && |e.memberships| == |d.memberships| + n
    decreases |es|
  {
    if es != [] {
      StepKeepsInv(s, es[0]);
      StepConserves(s, es[0]);
      ProvisioningConserves(Step(s, es[0]), es[1..]);
    }
  }

  lemma {:induction false} NewUsersHaveHomes(s: State, es: seq<Event>)
    requires Run(s, es)
    ensures After(s, es).db.users.Keys - s.db.users.Keys <= After(s, es).homes.Keys
    decreases |es|
  {
    if es != [] {
      var t := Step(s, es[0]);
      NewUsersHaveHomes(t, es[1..]);
      HomesGrow(t, es[1..]);
    }
  }

  lemma {:induction false} HomesGrow(s: State, es: seq<Event>)
    requires Run(s, es)
    ensures s.homes.Keys <= After(s, es).homes.Keys
    decreases |es|
  {
    if es != [] {
      HomesGrow(Step(s, es[0]), es[1..]);
    }
  }

  /** Every user that a run adds has exactly one identity and exactly one membership, which is its
      default, in a tenant that has no other member. */
  lemma ProvisionedUserHasOneOfEach(s: State, es: seq<Event>, u: Uuid) returns (h: Home)
    requires Inv(s) && Run(s, es) && u in After(s, es).db.users && u !in s.db.users
    ensures var d := After(s, es).db;
            && (forall k :: k in d.identities && d.identities[k].user == u <==> k == h.key)
            && (forall t: Uuid :: (u, t) in d.memberships <==> t == h.tenant)
            && (forall v: Uuid :: (v, h.tenant) in d.memberships <==> v == u)
            && d.memberships[(u, h.tenant)].isDefault
  {
    RunKeepsInv(s, es);
    NewUsersHaveHomes(s, es);
    var t := After(s, es);
    h := t.homes[u];
    assert u in t.db.users.Keys - s.db.users.Keys && AtHome(t.db, u, h);
    assert forall k :: k in t.db.identities && t.db.identities[k].user == u <==> Owner(t.db, k) == Some(u);
  }
}
