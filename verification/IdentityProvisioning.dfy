/** Any number of app.map_identity calls racing at READ COMMITTED.

    A call is a lookup; then, if it may provision, the insert of its user row, the insert of its
    identity, tenant and membership rows, and the commit; or, once it knows a user, the choice of
    tenant. Rows not yet committed are seen by nobody else, except that an insert of the same
    (provider, subject) waits until the transaction that inserted it first has ended. Ids are
    random and never drawn twice. Administrators may switch tenants and memberships on and off.

    `homes` is history that no event reads: the key and the tenant each provisioned user got. */
module IdentityProvisioning {
  import opened Wrappers
  import opened IdentityTables

  type Pid = nat

  datatype Txn =
    | Missed(call: Call, before: Db)
    | UserInserted(call: Call, before: Db, user: Uuid)
    | Provisioned(call: Call, before: Db, user: Uuid, tenant: Uuid)
    | Found(call: Call, before: Db, user: Uuid)

  datatype Home = Home(key: Key, tenant: Uuid)

  datatype State = State(db: Db, txns: map<Pid, Txn>, drawn: set<Uuid>, homes: map<Uuid, Home>)

  datatype Event =
    | Lookup(pid: Pid, call: Call)
    | InsertUser(pid: Pid, user: Uuid)
    | InsertRest(pid: Pid, tenant: Uuid)
    | Commit(pid: Pid)
    | Choose(pid: Pid, answer: Answer)
    | Abort(pid: Pid)
    | SwitchTenant(tenant: Uuid, active: bool)
    | SwitchMembership(user: Uuid, tenant: Uuid, active: bool)

  // ---- Steps ------------------------------------------------------------------------------------

  /** Transaction `p` has inserted `k` and not ended. */
  predicate Holds(txns: map<Pid, Txn>, p: Pid, k: Key) { p in txns && txns[p].Provisioned? && txns[p].call.key == k }

  ghost predicate Enabled(s: State, e: Event) {
    match e
    case Lookup(p, _) => p !in s.txns
    case InsertUser(p, u) => p in s.txns && s.txns[p].Missed? && u !in s.drawn
    case InsertRest(p, t) =>
      && p in s.txns && s.txns[p].UserInserted? && t !in s.drawn
      && forall q :: !Holds(s.txns, q, s.txns[p].call.key)
    case Commit(p) => p in s.txns && s.txns[p].Provisioned?
    case Choose(p, a) => p in s.txns && s.txns[p].Found? && Resolves(s.db, s.txns[p].user, a)
    case Abort(p) => p in s.txns
    case SwitchTenant(t, _) => t in s.db.tenants
    case SwitchMembership(u, t, _) => (u, t) in s.db.memberships
  }

  function Finish(s: State, p: Pid): State { s.(txns := s.txns - {p}) }

  function LookedUp(s: State, p: Pid, c: Call): State {
    match Owner(s.db, c.key)
    case Some(u) => s.(txns := s.txns[p := Found(c, s.db, u)])
    case None => if c.provision then s.(txns := s.txns[p := Missed(c, s.db)]) else s
  }

  /** The rest of the inserts. A key already taken undoes them and the user row, and the call goes
      on with the winner's user. */
  function RestInserted(s: State, p: Pid, t: Uuid): State
    requires p in s.txns && s.txns[p].UserInserted?
  {
    var x := s.txns[p];
    var s := s.(drawn := s.drawn + {t});
    match Owner(s.db, x.call.key)
    case Some(winner) => s.(txns := s.txns[p := Found(x.call, x.before, winner)])
    case None => s.(txns := s.txns[p := Provisioned(x.call, x.before, x.user, t)])
  }

  function Committed(s: State, p: Pid): State
    requires p in s.txns && s.txns[p].Provisioned?
  {
    var x := s.txns[p];
    Finish(s, p).(
      db := Provision(s.db, x.call, x.user, x.tenant),
      homes := s.homes[x.user := Home(x.call.key, x.tenant)])
  }

  ghost function Step(s: State, e: Event): State
    requires Enabled(s, e)
  {
    match e
    case Lookup(p, c) => LookedUp(s, p, c)
    case InsertUser(p, u) =>
      var x := s.txns[p];
      s.(txns := s.txns[p := UserInserted(x.call, x.before, u)], drawn := s.drawn + {u})
    case InsertRest(p, t) => RestInserted(s, p, t)
    case Commit(p) => Committed(s, p)
    case Choose(p, _) => Finish(s, p)
    case Abort(p) => Finish(s, p)
    case SwitchTenant(t, active) => s.(db := s.db.(tenants := s.db.tenants[t := s.db.tenants[t].(active := active)]))
    case SwitchMembership(u, t, active) =>
      s.(db := s.db.(memberships := s.db.memberships[(u, t) := s.db.memberships[(u, t)].(active := active)]))
  }

  /** The call an event ends and its answer. */
  ghost function Reply(s: State, e: Event): Option<(Call, Answer)>
    requires Enabled(s, e)
  {
    match e
    case Lookup(_, c) => if Owner(s.db, c.key).None? && !c.provision then Some((c, IdentityNotFound)) else None
    case Commit(p) => var x := s.txns[p]; Some((x.call, Mapped(x.user, x.tenant, x.call.email)))
    case Choose(p, a) => Some((s.txns[p].call, a))
    case _ => None
  }

  // ---- The invariant ------------------------------------------------------------------------------

  /** The user and the tenant of a call that has not committed them. */
  predicate DraftsUser(txns: map<Pid, Txn>, p: Pid, u: Uuid) {
    p in txns && (txns[p].UserInserted? || txns[p].Provisioned?) && txns[p].user == u
  }

  predicate DraftsTenant(txns: map<Pid, Txn>, p: Pid, t: Uuid) {
    p in txns && txns[p].Provisioned? && txns[p].tenant == t
  }

  ghost predicate IdsDrawn(s: State) {
    && s.db.users.Keys <= s.drawn && s.db.tenants.Keys <= s.drawn
    && (forall p, u :: DraftsUser(s.txns, p, u) ==> u in s.drawn && u !in s.db.users)
    && (forall p, t :: DraftsTenant(s.txns, p, t) ==> t in s.drawn && t !in s.db.tenants)
    && (forall p, q, u :: DraftsUser(s.txns, p, u) && DraftsUser(s.txns, q, u) ==> p == q)
    && (forall p, q, t :: DraftsTenant(s.txns, p, t) && DraftsTenant(s.txns, q, t) ==> p == q)
  }

  ghost predicate KeysHeld(s: State) {
    && (forall p, k :: Holds(s.txns, p, k) ==> k !in s.db.identities)
    && (forall p, q, k :: Holds(s.txns, p, k) && Holds(s.txns, q, k) ==> p == q)
  }

  /** A call goes on with a user only if its key belongs to that user; it provisions only if it was
      asked to and its lookup found nothing. */
  ghost predicate CallsKept(s: State) {
    forall p :: p in s.txns ==>
      var x := s.txns[p];
      && (x.Found? ==> Owner(s.db, x.call.key) == Some(x.user))
      && (!x.Found? ==> x.call.provision && x.call.key !in x.before.identities)
      && (x.call.key in x.before.identities ==> x.Found? && x.before.identities[x.call.key].user == x.user)
      && (x.Found? && x.call.key !in x.before.identities ==> x.call.provision)
  }

  /** A provisioned user has one identity and one membership, the default one, and is the only
      member of its tenant. */
  ghost predicate AtHome(d: Db, u: Uuid, h: Home) {
    && u in d.users
    && (forall k :: Owner(d, k) == Some(u) <==> k == h.key)
    && (forall t: Uuid :: (u, t) in d.memberships <==> t == h.tenant)
    && (forall v: Uuid :: (v, h.tenant) in d.memberships <==> v == u)
    && d.memberships[(u, h.tenant)].isDefault
  }

  ghost predicate HomesKept(s: State) { forall u :: u in s.homes ==> AtHome(s.db, u, s.homes[u]) }

  ghost predicate TxnsKept(s: State) { IdsDrawn(s) && KeysHeld(s) && CallsKept(s) }

  ghost predicate Inv(s: State) { References(s.db) && TxnsKept(s) && HomesKept(s) }

  // ---- Every event keeps the invariant --------------------------------------------------------------

  lemma CommitClashesWithNothing(s: State, p: Pid)
    requires References(s.db) && TxnsKept(s) && p in s.txns && s.txns[p].Provisioned?
    ensures var x := s.txns[p]; !Clashes(s.db, x.call, x.user, x.tenant)
  {
    var x := s.txns[p];
    assert Holds(s.txns, p, x.call.key) && DraftsUser(s.txns, p, x.user) && DraftsTenant(s.txns, p, x.tenant);
  }

  lemma ProvisionMakesHome(d: Db, c: Call, u: Uuid, t: Uuid)
    requires References(d) && !Clashes(d, c, u, t)
    ensures References(Provision(d, c, u, t)) && AtHome(Provision(d, c, u, t), u, Home(c.key, t))
  {
  }

  lemma ProvisionKeepsHome(d: Db, c: Call, u: Uuid, t: Uuid, v: Uuid, h: Home)
    requires References(d) && !Clashes(d, c, u, t) && AtHome(d, v, h)
    ensures AtHome(Provision(d, c, u, t), v, h)
  {
    var e := Provision(d, c, u, t);
    assert (v, h.tenant) in d.memberships && Owner(d, h.key) == Some(v);
    assert forall k :: k != c.key ==> Owner(e, k) == Owner(d, k);
  }

  lemma CommitKeepsHomes(s: State, p: Pid)
    requires Inv(s) && p in s.txns && s.txns[p].Provisioned?
    ensures References(Committed(s, p).db) && HomesKept(Committed(s, p))
  {
    var x, t := s.txns[p], Committed(s, p);
    CommitClashesWithNothing(s, p);
    ProvisionMakesHome(s.db, x.call, x.user, x.tenant);
    forall v | v in t.homes && v != x.user
      ensures AtHome(t.db, v, t.homes[v])
    {
      ProvisionKeepsHome(s.db, x.call, x.user, x.tenant, v, s.homes[v]);
    }
  }

  lemma SameRowsKeepHomes(s: State, t: State)
    requires References(s.db) && HomesKept(s) && t.homes == s.homes && SameRows(s.db, t.db)
    ensures References(t.db) && HomesKept(t)
  {
    forall u | u in t.homes
      ensures AtHome(t.db, u, t.homes[u])
    {
      assert AtHome(s.db, u, s.homes[u]);
      assert forall k :: Owner(t.db, k) == Owner(s.db, k);
      assert forall m :: m in t.db.memberships <==> m in s.db.memberships;
    }
  }

  /** The same rows, possibly switched on or off. */
  ghost predicate SameRows(d: Db, e: Db) {
    && e.users == d.users && e.identities == d.identities
    && e.tenants.Keys == d.tenants.Keys && e.memberships.Keys == d.memberships.Keys
    && forall m :: m in d.memberships ==> e.memberships[m] == d.memberships[m].(active := e.memberships[m].active)
  }

  /** `t` has no transaction that `s` has not. */
  lemma FewerTxnsKept(s: State, t: State)
    requires TxnsKept(s) && s.drawn == t.drawn && SameRows(s.db, t.db)
    requires forall q :: q in t.txns ==> q in s.txns && t.txns[q] == s.txns[q]
    ensures TxnsKept(t)
  {
    assert forall q, k :: Holds(t.txns, q, k) ==> Holds(s.txns, q, k);
    assert forall q, u :: DraftsUser(t.txns, q, u) ==> DraftsUser(s.txns, q, u);
    assert forall q, u :: DraftsTenant(t.txns, q, u) ==> DraftsTenant(s.txns, q, u);
  }

  lemma LookupKeepsTxns(s: State, p: Pid, c: Call)
    requires TxnsKept(s) && p !in s.txns
    ensures TxnsKept(LookedUp(s, p, c))
  {
    var t := LookedUp(s, p, c);
    assert forall q, k :: Holds(t.txns, q, k) ==> Holds(s.txns, q, k);
    assert forall q, u :: DraftsUser(t.txns, q, u) ==> DraftsUser(s.txns, q, u);
    assert forall q, u :: DraftsTenant(t.txns, q, u) ==> DraftsTenant(s.txns, q, u);
  }

  lemma InsertUserKeepsTxns(s: State, p: Pid, u: Uuid)
    requires TxnsKept(s) && Enabled(s, InsertUser(p, u))
    ensures TxnsKept(Step(s, InsertUser(p, u)))
  {
    var t := Step(s, InsertUser(p, u));
    assert forall q, k :: Holds(t.txns, q, k) ==> Holds(s.txns, q, k);
    assert forall q, v :: DraftsUser(t.txns, q, v) ==> DraftsUser(s.txns, q, v) || (q == p && v == u);
    assert forall q, v :: DraftsTenant(t.txns, q, v) ==> DraftsTenant(s.txns, q, v);
  }

  lemma WinnerFoundKeepsTxns(s: State, p: Pid, tenant: Uuid)
    requires TxnsKept(s) && Enabled(s, InsertRest(p, tenant)) && s.txns[p].call.key in s.db.identities
    ensures TxnsKept(RestInserted(s, p, tenant))
  {
    var t := RestInserted(s, p, tenant);
    assert forall q, k :: Holds(t.txns, q, k) ==> Holds(s.txns, q, k);
    assert forall q, u :: DraftsUser(t.txns, q, u) ==> DraftsUser(s.txns, q, u);
    assert forall q, u :: DraftsTenant(t.txns, q, u) ==> DraftsTenant(s.txns, q, u);
  }

  lemma InsertRestKeepsTxns(s: State, p: Pid, tenant: Uuid)
    requires TxnsKept(s) && Enabled(s, InsertRest(p, tenant)) && s.txns[p].call.key !in s.db.identities
    ensures TxnsKept(RestInserted(s, p, tenant))
  {
    var t, key := RestInserted(s, p, tenant), s.txns[p].call.key;
    assert forall q, k :: Holds(t.txns, q, k) ==> Holds(s.txns, q, k) || (q == p && k == key);
    assert forall q, u :: DraftsUser(t.txns, q, u) ==> DraftsUser(s.txns, q, u);
    assert forall q, u :: DraftsTenant(t.txns, q, u) ==> DraftsTenant(s.txns, q, u) || (q == p && u == tenant);
  }

  lemma CommitKeepsTxns(s: State, p: Pid)
    requires TxnsKept(s) && p in s.txns && s.txns[p].Provisioned?
    ensures TxnsKept(Committed(s, p))
  {
    var x, t := s.txns[p], Committed(s, p);
    assert Holds(s.txns, p, x.call.key) && DraftsUser(s.txns, p, x.user) && DraftsTenant(s.txns, p, x.tenant);
    assert forall q, k :: Holds(t.txns, q, k) ==> Holds(s.txns, q, k) && q != p;
    assert forall q, u :: DraftsUser(t.txns, q, u) ==> DraftsUser(s.txns, q, u) && q != p;
    assert forall q, u :: DraftsTenant(t.txns, q, u) ==> DraftsTenant(s.txns, q, u) && q != p;
  }

  lemma StepKeepsInv(s: State, e: Event)
    requires Inv(s) && Enabled(s, e)
    ensures Inv(Step(s, e))
  {
    if e.Commit? {
      CommitKeepsHomes(s, e.pid);
    } else {
      SameRowsKeepHomes(s, Step(s, e));
    }
    match e
    case Lookup(p, c) => LookupKeepsTxns(s, p, c);
    case InsertUser(p, u) => InsertUserKeepsTxns(s, p, u);
    case InsertRest(p, t) =>
      if s.txns[p].call.key in s.db.identities { WinnerFoundKeepsTxns(s, p, t); } else { InsertRestKeepsTxns(s, p, t); }
    case Commit(p) => CommitKeepsTxns(s, p);
    case _ => FewerTxnsKept(s, Step(s, e));
  }
}
