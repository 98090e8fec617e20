/** The tables behind app.map_identity and the procedure itself.

    `landed` is what the tables hold once other transactions have committed between the procedure's
    first SELECT and its own inserts: at READ COMMITTED those commits become visible to it. */
module IdentityTables {
  import opened Wrappers
  import S = SessionTable

  type Uuid = S.Uuid
  type Time = S.Time

  datatype Key = Key(provider: string, subject: string)
  datatype Identity = Identity(user: Uuid, email: Option<string>)
  datatype Tenant = Tenant(name: string, active: bool)
  datatype Membership = Membership(active: bool, isDefault: bool, createdAt: Time)

  datatype Db = Db(
    users: map<Uuid, Option<string>>, identities: map<Key, Identity>,
    tenants: map<Uuid, Tenant>, memberships: map<(Uuid, Uuid), Membership>)

  datatype Call = Call(key: Key, email: Option<string>, provision: bool, now: Time)

  datatype Answer =
    | Mapped(user: Uuid, tenant: Uuid, email: Option<string>)
    | IdentityNotFound
    | NoActiveTenant
    | UniqueViolation

  /** The foreign keys of identities and memberships. */
  ghost predicate References(d: Db) {
    && (forall k :: k in d.identities ==> d.identities[k].user in d.users)
    && (forall u, t :: (u, t) in d.memberships ==> u in d.users && t in d.tenants)
  }

  function Owner(d: Db, k: Key): Option<Uuid> {
    if k in d.identities then Some(d.identities[k].user) else None
  }

  // ---- Choosing the tenant --------------------------------------------------------------------

  predicate Usable(d: Db, u: Uuid, t: Uuid) {
    (u, t) in d.memberships && d.memberships[(u, t)].active && t in d.tenants && d.tenants[t].active
  }

  /** ORDER BY is_default DESC, created_at ASC. */
  predicate Precedes(m: Membership, n: Membership) {
    (m.isDefault && !n.isDefault) || (m.isDefault == n.isDefault && m.createdAt < n.createdAt)
  }

  predicate ComesBefore(d: Db, u: Uuid, x: Uuid, t: Uuid) {
    Usable(d, u, x) && Usable(d, u, t) && Precedes(d.memberships[(u, x)], d.memberships[(u, t)])
  }

  /** LIMIT 1 may return `t`: no usable membership of `u` comes before it. */
  ghost predicate Best(d: Db, u: Uuid, t: Uuid) { Usable(d, u, t) && forall x :: !ComesBefore(d, u, x, t) }

  /** Two memberships share first place, so the query leaves the choice open. */
  ghost predicate Tied(d: Db, u: Uuid) {
    exists t, x :: t != x && Best(d, u, t) && Best(d, u, x)
  }

  /** What the procedure may answer about a user it has found. */
  ghost predicate Resolves(d: Db, u: Uuid, a: Answer) {
    match a
    case Mapped(v, t, email) => v == u && Best(d, u, t) && u in d.users && email == d.users[u]
    case NoActiveTenant => forall t :: !Usable(d, u, t)
    case _ => false
  }

  /** The choice in the columns of the two tables: an active membership of an active tenant; the default
      one, if any such membership is; and of those with its flag the earliest created. */
  predicate ChosenTenant(d: Db, u: Uuid, t: Uuid) {
    && (u, t) in d.memberships && d.memberships[(u, t)].active && t in d.tenants && d.tenants[t].active
    && forall x :: x in d.tenants && (u, x) in d.memberships && d.tenants[x].active && d.memberships[(u, x)].active ==>
         var chosen, other := d.memberships[(u, t)], d.memberships[(u, x)];
         && (other.isDefault ==> chosen.isDefault)
         && (other.isDefault == chosen.isDefault ==> chosen.createdAt <= other.createdAt)
  }

  lemma BestIsChosen(d: Db, u: Uuid, t: Uuid)
    ensures Best(d, u, t) <==> ChosenTenant(d, u, t)
  {
    if Best(d, u, t) {
      forall x | x in d.tenants && (u, x) in d.memberships && d.tenants[x].active && d.memberships[(u, x)].active
        ensures d.memberships[(u, x)].isDefault ==> d.memberships[(u, t)].isDefault
        ensures d.memberships[(u, x)].isDefault == d.memberships[(u, t)].isDefault ==>
                  d.memberships[(u, t)].createdAt <= d.memberships[(u, x)].createdAt
      {
        assert !ComesBefore(d, u, x, t);
      }
    }
    if ChosenTenant(d, u, t) {
      forall x
        ensures !ComesBefore(d, u, x, t)
      {
      }
    }
  }

  /** What the procedure may answer about a user it has found: a tenant it is an active member of, default
      before others and oldest first, with the user's email; or that there is no such tenant. */
  lemma AnswersInColumns(d: Db, u: Uuid, a: Answer)
    ensures a.Mapped? ==> (Resolves(d, u, a) <==>
              a.user == u && u in d.users && a.email == d.users[u] && ChosenTenant(d, u, a.tenant))
    ensures a.NoActiveTenant? ==> (Resolves(d, u, a) <==>
              forall t :: t in d.tenants && (u, t) in d.memberships ==>
                            !d.tenants[t].active || !d.memberships[(u, t)].active)
    ensures Resolves(d, u, a) ==> a.Mapped? || a.NoActiveTenant?
  {
    match a
    case Mapped(_, t, _) => BestIsChosen(d, u, t);
    case NoActiveTenant =>
      assert forall t: Uuid :: Usable(d, u, t) <==>
               t in d.tenants && (u, t) in d.memberships && d.tenants[t].active && d.memberships[(u, t)].active;
    case _ =>
  }

  lemma AnyAnswerInColumns(d: Db, u: Uuid)
    ensures forall a: Answer :: a.Mapped? && Resolves(d, u, a) ==>
              a.user == u && u in d.users && a.email == d.users[u] && ChosenTenant(d, u, a.tenant)
  {
    forall a: Answer
      ensures a.Mapped? && Resolves(d, u, a) ==>
                a.user == u && u in d.users && a.email == d.users[u] && ChosenTenant(d, u, a.tenant)
    {
      AnswersInColumns(d, u, a);
    }
  }

  /** First place is shared exactly when two of a user's memberships could both be chosen. */
  lemma TiedInColumns(d: Db, u: Uuid)
    ensures Tied(d, u) <==> exists t, x :: t != x && ChosenTenant(d, u, t) && ChosenTenant(d, u, x)
  {
    forall t: Uuid
      ensures Best(d, u, t) <==> ChosenTenant(d, u, t)
    {
      BestIsChosen(d, u, t);
    }
  }

  lemma {:induction false} SomeTenantIsBest(d: Db, u: Uuid, among: set<Uuid>) returns (t: Uuid)
    requires among != {} && forall x: Uuid :: x in among ==> Usable(d, u, x)
    ensures t in among && forall x: Uuid :: x in among ==> !ComesBefore(d, u, x, t)
    decreases |among|
  {
    t :| t in among;
    if among != {t} {
      var s := SomeTenantIsBest(d, u, among - {t});
      assert forall x :: x in among ==> x == t || x in among - {t};
      if ComesBefore(d, u, s, t) {
        t := s;
      }
    }
  }

  // ---- Provisioning -----------------------------------------------------------------------------

  /** The four rows a provisioning call inserts. */
  function Provision(d: Db, c: Call, u: Uuid, t: Uuid): Db {
    Db(d.users[u := c.email],
       d.identities[c.key := Identity(u, c.email)],
       d.tenants[t := Tenant((if c.email.Some? then c.email.value else "user") + " (personal)", true)],
       d.memberships[(u, t) := Membership(true, true, c.now)])
  }

  /** Some unique key already has one of the four rows. */
  predicate Clashes(d: Db, c: Call, u: Uuid, t: Uuid) {
    u in d.users || c.key in d.identities || t in d.tenants || (u, t) in d.memberships
  }

  /** The rows, column by column: the identity keeps the email of the login, the tenant is named after it, and
      the membership is active, the default one, and created when the call started. */
  lemma ProvisionInColumns(d: Db, c: Call, u: Uuid, t: Uuid)
    ensures var e := Provision(d, c, u, t);
            && e.users[u] == c.email && e.identities[c.key].user == u && e.identities[c.key].email == c.email
            && e.tenants[t].active
            && (c.email.Some? ==> e.tenants[t].name == c.email.value + " (personal)")
            && (c.email.None? ==> e.tenants[t].name == "user (personal)")
            && e.memberships[(u, t)].active && e.memberships[(u, t)].isDefault
            && e.memberships[(u, t)].createdAt == c.now
  {
    assert "user" + " (personal)" == "user (personal)";
  }

  /** One call of the procedure: its first SELECT saw `before`, its inserts met `landed`, it left
      `after` and answered `a`; `u` and `t` are the ids generated for it. */
  ghost predicate Performs(before: Db, landed: Db, c: Call, u: Uuid, t: Uuid, after: Db, a: Answer) {
    var found := Owner(before, c.key);
    if found.Some? then after == landed && Resolves(landed, found.value, a)
    else if !c.provision then after == landed && a == IdentityNotFound
    else if !Clashes(landed, c, u, t) then after == Provision(landed, c, u, t) && a == Mapped(u, t, c.email)
    else
      && after == landed
      && match Owner(landed, c.key)
         case Some(winner) => Resolves(landed, winner, a)
         case None => a == UniqueViolation
  }

  /** Other transactions add and update rows; they delete no user. */
  ghost predicate Keeps(d: Db, e: Db) { d.users.Keys <= e.users.Keys }

  class IdentityStore {
    var users: map<Uuid, Option<string>>
    var identities: map<Key, Identity>
    var tenants: map<Uuid, Tenant>
    var memberships: map<(Uuid, Uuid), Membership>

    function Contents(): Db
      reads this
    {
      Db(users, identities, tenants, memberships)
    }

    constructor ()
      ensures Contents() == Db(map[], map[], map[], map[])
    {
      users, identities, tenants, memberships := map[], map[], map[], map[];
    }

    method Load(d: Db)
      modifies this
      ensures Contents() == d
    {
      users, identities, tenants, memberships := d.users, d.identities, d.tenants, d.memberships;
    }

    /** The four INSERTs, each stopped by its table's unique keys. */
    method InsertAll(c: Call, u: Uuid, t: Uuid) returns (violation: bool)
      modifies this
      ensures violation == Clashes(old(Contents()), c, u, t)
      ensures !violation ==> Contents() == Provision(old(Contents()), c, u, t)
    {
      if u in users { return true; }
      users := users[u := c.email];
      if c.key in identities { return true; }
      identities := identities[c.key := Identity(u, c.email)];
      if t in tenants { return true; }
      var owner := if c.email.Some? then c.email.value else "user";
      tenants := tenants[t := Tenant(owner + " (personal)", true)];
      if (u, t) in memberships { return true; }
      memberships := memberships[(u, t) := Membership(true, true, c.now)];
      return false;
    }

    method ResolveTenant(u: Uuid) returns (a: Answer)
      requires u in users
      ensures Resolves(Contents(), u, a)
      ensures a.Mapped? ==> a.user == u && a.email == users[u] && ChosenTenant(Contents(), u, a.tenant)
    {
      AnyAnswerInColumns(Contents(), u);
      var d := Contents();
      var usable := set m | m in memberships && m.0 == u && Usable(d, u, m.1) :: m.1;
      assert forall x: Uuid :: Usable(d, u, x) ==> (u, x) in memberships && (u, x).1 in usable;
      if usable == {} { return NoActiveTenant; }
      ghost var first := SomeTenantIsBest(d, u, usable);
      var t :| t in usable && forall x: Uuid :: x in usable ==> !ComesBefore(d, u, x, t);
      return Mapped(u, t, users[u]);
    }

    /** app.map_identity. The EXCEPTION block is a savepoint: a violation undoes all four inserts. */
    method MapIdentity(c: Call, newUser: Uuid, newTenant: Uuid, landed: Db) returns (a: Answer)
      requires References(Contents()) && References(landed) && Keeps(Contents(), landed)
      modifies this
      ensures Performs(old(Contents()), landed, c, newUser, newTenant, Contents(), a)
    {
      var userId := Owner(Contents(), c.key);
      Load(landed);
      if userId.None? {
        if !c.provision { return IdentityNotFound; }
        var savepoint := Contents();
        var violation := InsertAll(c, newUser, newTenant);
        if !violation { return Mapped(newUser, newTenant, c.email); }
        Load(savepoint);
        userId := Owner(Contents(), c.key);
        if userId.None? { return UniqueViolation; }
      }
      a := ResolveTenant(userId.value);
    }
  }
}
