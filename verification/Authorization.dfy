/** The authoritative policy decision and the coarse scopes computed from the same policy. */
module Authorization {
  import opened Wrappers
  import opened Text

  // ---- Policies and contexts -------------------------------------------------------------------

  /** Conditions of policy rules over the actor, the resource and the actor's roles. */
  datatype Cond =
    | ActorAssigned
    | ActorOwns
    | HasRole(role: string)
    | Not(c: Cond)
    | And(a: Cond, b: Cond)
    | Or(a: Cond, b: Cond)

  datatype Rule = Rule(role: string, objType: string, act: string, cond: Option<Cond>, eft: string)

  type Policy = seq<Rule>

  datatype Context = Context(
    actor: string, tenant: string, roles: set<string>, action: string, resourceType: string,
    owner: Option<string>, assignees: set<string>, resourceTenant: Option<string>)

  const ANY: string := "*"

  function OrEmpty(s: Option<string>): string { if s.Some? then s.value else "" }

  predicate Holds(c: Cond, x: Context) {
    match c
    case ActorAssigned => x.actor in x.assignees
    case ActorOwns => OrEmpty(x.owner) == x.actor
    case HasRole(role) => role in x.roles
    case Not(d) => !Holds(d, x)
    case And(a, b) => Holds(a, x) && Holds(b, x)
    case Or(a, b) => Holds(a, x) || Holds(b, x)
  }

  /** The matcher of the model. */
  predicate Applies(r: Rule, x: Context) {
    && (r.role == ANY || r.role in x.roles)
    && (r.objType == ANY || r.objType == x.resourceType)
    && (r.act == ANY || r.act == x.action)
    && (OrEmpty(x.resourceTenant) == "" || OrEmpty(x.resourceTenant) == x.tenant)
    && (r.cond.None? || Holds(r.cond.value, x))
  }

  predicate SomeRule(p: Policy, eft: string, x: Context) {
    exists i :: 0 <= i < |p| && p[i].eft == eft && Applies(p[i], x)
  }

  datatype Decision = Permitted | Forbidden(crossTenant: bool)

  predicate CrossTenant(x: Context) { x.resourceTenant.Some? && x.resourceTenant.value != x.tenant }

  /** enforce: the tenant pre-check, then some allow rule and no deny rule. */
  function Enforce(p: Policy, x: Context): Decision {
    if CrossTenant(x) then Forbidden(true)
    else if SomeRule(p, "allow", x) && !SomeRule(p, "deny", x) then Permitted
    else Forbidden(false)
  }

  /** Why a context is refused: it is cross-tenant exactly when the resource belongs to a tenant other than
      the actor's, whatever the policy; any other refusal is the policy's. */
  lemma RefusalSaysWhy(p: Policy, x: Context)
    ensures Enforce(p, x) == Forbidden(true) <==> x.resourceTenant != None && x.resourceTenant != Some(x.tenant)
    ensures Enforce(p, x) == Forbidden(false) ==> x.resourceTenant == None || x.resourceTenant == Some(x.tenant)
  {
  }

  /** The matcher keeps tenants apart by itself: without the check before it, no rule applies to a resource
      of another tenant. */
  lemma MatcherIsTenantBound(r: Rule, x: Context, t: string)
    requires x.resourceTenant == Some(t) && t != "" && t != x.tenant
    ensures !Applies(r, x)
  {
  }

  /** A conjunction in a condition applies a rule where both its parts would; a disjunction, where either. */
  lemma ConnectivesMeetAndJoin(r: Rule, a: Cond, b: Cond, x: Context)
    ensures Applies(r.(cond := Some(And(a, b))), x)
            <==> Applies(r.(cond := Some(a)), x) && Applies(r.(cond := Some(b)), x)
    ensures Applies(r.(cond := Some(Or(a, b))), x)
            <==> Applies(r.(cond := Some(a)), x) || Applies(r.(cond := Some(b)), x)
  {
  }

  /** A deny rule only takes away: whatever rules come before it and after it, what is permitted with
      it is permitted without it, and nothing it applies to is. */
  lemma DenyOverrides(p: Policy, q: Policy, deny: Rule, x: Context)
    requires deny.eft == "deny"
    ensures Enforce(p + [deny] + q, x).Permitted? <==> Enforce(p + q, x).Permitted? && !Applies(deny, x)
  {
    var with, without := p + [deny] + q, p + q;
    assert with[|p|] == deny;
    assert forall i :: 0 <= i < |with| && i != |p| ==> with[i] == without[if i < |p| then i else i - 1];
    forall i | 0 <= i < |without|
      ensures without[i] == with[if i < |p| then i else i + 1]
    {
    }
    assert forall eft :: SomeRule(without, eft, x) ==> SomeRule(with, eft, x);
    assert SomeRule(with, "allow", x) ==> SomeRule(without, "allow", x);
    assert SomeRule(with, "deny", x) ==> SomeRule(without, "deny", x) || Applies(deny, x);
  }

  // ---- Scopes -----------------------------------------------------------------------------------

  const ACTIONS_BY_RESOURCE: map<string, set<string>> := map[
    "booking" := {"create", "read", "update", "delete", "approve", "cancel"},
    "event" := {"create", "read", "update", "delete"},
    "profile" := {"read", "update"},
    "payment" := {"read", "refund"}]

  predicate Registered(resourceType: string, action: string) {
    resourceType in ACTIONS_BY_RESOURCE && action in ACTIONS_BY_RESOURCE[resourceType]
  }

  function ScopeFor(resourceType: string, action: string): string { resourceType + "." + action }

  function TypesOf(r: Rule): set<string> { if r.objType == ANY then ACTIONS_BY_RESOURCE.Keys else {r.objType} }

  function ActionsOf(r: Rule, resourceType: string): set<string> {
    if r.act == ANY then (if resourceType in ACTIONS_BY_RESOURCE then ACTIONS_BY_RESOURCE[resourceType] else {})
    else {r.act}
  }

  predicate CountsFor(r: Rule, roles: set<string>) { r.eft == "allow" && (r.role == ANY || r.role in roles) }

  /** Rule `r` contributes the scope of this type and action. */
  predicate Contributes(r: Rule, roles: set<string>, resourceType: string, action: string) {
    CountsFor(r, roles) && resourceType in TypesOf(r) && action in ActionsOf(r, resourceType)
  }

  ghost predicate RuleGrants(r: Rule, roles: set<string>, scope: string) {
    exists resourceType, action ::
      Contributes(r, roles, resourceType, action) && scope == ScopeFor(resourceType, action)
  }

  /** One of the first `n` rules grants the scope. */
  ghost predicate GrantedBy(p: Policy, n: nat, roles: set<string>, scope: string)
    requires n <= |p|
  {
    exists i :: 0 <= i < n && RuleGrants(p[i], roles, scope)
  }

  ghost predicate Granted(p: Policy, roles: set<string>, scope: string) { GrantedBy(p, |p|, roles, scope) }

  method ComputeScopes(p: Policy, roles: set<string>) returns (scopes: set<string>)
    ensures forall s :: s in scopes <==> Granted(p, roles, s)
  {
    scopes := {};
    for i := 0 to |p|
      invariant forall s :: s in scopes <==> GrantedBy(p, i, roles, s)
    {
      var r := p[i];
      assert forall s :: GrantedBy(p, i + 1, roles, s) <==> GrantedBy(p, i, roles, s) || RuleGrants(r, roles, s);
      if r.eft != "allow" {
        continue;
      }
      if r.role != ANY && r.role !in roles {
        continue;
      }
      var before := scopes;
      var types := if r.objType == ANY then ACTIONS_BY_RESOURCE.Keys else {r.objType};
      while types != {}
        invariant types <= TypesOf(r)
        invariant forall s :: s in scopes <==>
          s in before || exists t, a :: t in TypesOf(r) - types && a in ActionsOf(r, t) && s == ScopeFor(t, a)
        decreases types
      {
        var t :| t in types;
        var actions :=
          if r.act == ANY then (if t in ACTIONS_BY_RESOURCE then ACTIONS_BY_RESOURCE[t] else {}) else {r.act};
        scopes := scopes + (set a | a in actions :: ScopeFor(t, a));
        types := types - {t};
      }
      assert TypesOf(r) - types == TypesOf(r);
    }
  }

  // ---- The coarse gate never rejects what the fine check would allow ----------------------------------

  lemma EnforceImpliesScope(p: Policy, x: Context)
    requires Enforce(p, x).Permitted? && Registered(x.resourceType, x.action)
    ensures Granted(p, x.roles, ScopeFor(x.resourceType, x.action))
  {
    var i :| 0 <= i < |p| && p[i].eft == "allow" && Applies(p[i], x);
    assert Contributes(p[i], x.roles, x.resourceType, x.action);
    assert RuleGrants(p[i], x.roles, ScopeFor(x.resourceType, x.action));
  }

  predicate DotFree(s: string) { '.' !in s }

  lemma RegistryIsDotFree(resourceType: string, action: string)
    requires Registered(resourceType, action)
    ensures DotFree(resourceType) && DotFree(action)
  {
  }

  /** Different registered pairs have different scope strings, and no unregistered pair shares one. */
  lemma ScopeNamesOnePair(t1: string, a1: string, t2: string, a2: string)
    requires Registered(t1, a1) && ScopeFor(t1, a1) == ScopeFor(t2, a2)
    ensures t1 == t2 && a1 == a2
  {
    RegistryIsDotFree(t1, a1);
    TwoPieces(t1, a1, t2, a2, '.');
  }

  /** The registry and the form of a scope, spelled out. */
  lemma ScopesReadAsRegistered(t: string, a: string)
    ensures Registered(t, a) <==>
              || (t == "booking" && a in ["create", "read", "update", "delete", "approve", "cancel"])
              || (t == "event" && a in ["create", "read", "update", "delete"])
              || (t == "profile" && a in ["read", "update"])
              || (t == "payment" && a in ["read", "refund"])
    ensures ScopeFor("booking", "approve") == "booking.approve" && ScopeFor("payment", "refund") == "payment.refund"
  {
  }

  const ALLOW_ALL: Policy := [Rule(ANY, ANY, ANY, None, "allow")]

  /** That no policy at all permits the action without its scope being computed is true of exactly
      the contexts whose pair of type and action is in the registry, and of the cross-tenant ones,
      which are never permitted anything. */
  lemma GateCoversEveryPolicyIff(x: Context)
    ensures (forall p :: Enforce(p, x).Permitted? ==> Granted(p, x.roles, ScopeFor(x.resourceType, x.action)))
            <==> Registered(x.resourceType, x.action) || CrossTenant(x)
  {
    if Registered(x.resourceType, x.action) {
      forall p | Enforce(p, x).Permitted?
        ensures Granted(p, x.roles, ScopeFor(x.resourceType, x.action))
      {
        EnforceImpliesScope(p, x);
      }
    } else if !CrossTenant(x) {
      var p := ALLOW_ALL;
      assert p[0].eft == "allow" && Applies(p[0], x);
      assert Enforce(p, x).Permitted?;
      if Granted(p, x.roles, ScopeFor(x.resourceType, x.action)) {
        var t, a :| Contributes(p[0], x.roles, t, a) && ScopeFor(x.resourceType, x.action) == ScopeFor(t, a);
        ScopeNamesOnePair(t, a, x.resourceType, x.action);
      }
    }
  }

  // ---- Roles ------------------------------------------------------------------------------------

  /** More roles can only make the condition true (`up`) or only make it false (`!up`). */
  predicate Leans(c: Cond, up: bool) {
    match c
    case HasRole(_) => up
    case Not(d) => Leans(d, !up)
    case And(a, b) => Leans(a, up) && Leans(b, up)
    case Or(a, b) => Leans(a, up) && Leans(b, up)
    case _ => true
  }

  lemma {:induction false} LeaningHolds(c: Cond, x: Context, more: set<string>, up: bool)
    requires x.roles <= more && Leans(c, up)
    ensures up ==> (Holds(c, x) ==> Holds(c, x.(roles := more)))
    ensures !up ==> (Holds(c, x.(roles := more)) ==> Holds(c, x))
  {
    match c
    case Not(d) => LeaningHolds(d, x, more, !up);
    case And(a, b) =>
      LeaningHolds(a, x, more, up);
      LeaningHolds(b, x, more, up);
    case Or(a, b) =>
      LeaningHolds(a, x, more, up);
      LeaningHolds(b, x, more, up);
    case _ =>
  }

  /** Allow rules lean on having roles; deny rules are for everyone and lean on lacking them. */
  predicate RolesOnlyHelp(p: Policy) {
    forall i :: 0 <= i < |p| ==>
      && (p[i].eft == "allow" && p[i].cond.Some? ==> Leans(p[i].cond.value, true))
      && (p[i].eft == "deny" ==> p[i].role == ANY && (p[i].cond.Some? ==> Leans(p[i].cond.value, false)))
  }

  /** Under such a policy, adding roles never turns a permitted context into a forbidden one. */
  lemma MoreRolesKeepPermission(p: Policy, x: Context, more: set<string>)
    requires RolesOnlyHelp(p) && x.roles <= more && Enforce(p, x).Permitted?
    ensures Enforce(p, x.(roles := more)).Permitted?
  {
    var y := x.(roles := more);
    var i :| 0 <= i < |p| && p[i].eft == "allow" && Applies(p[i], x);
    if p[i].cond.Some? {
      LeaningHolds(p[i].cond.value, x, more, true);
    }
    assert Applies(p[i], y);
    forall j | 0 <= j < |p| && p[j].eft == "deny"
      ensures !Applies(p[j], y)
    {
      assert !Applies(p[j], x);
      if p[j].cond.Some? {
        LeaningHolds(p[j].cond.value, x, more, false);
      }
    }
  }

  // ---- The shipped policy -------------------------------------------------------------------------

  const SHIPPED: Policy := [
    Rule("admin", "booking", "*", None, "allow"),
    Rule("manager", "booking", "approve", None, "allow"),
    Rule("staff", "event", "read", Some(ActorAssigned), "allow"),
    Rule("owner", "profile", "update", Some(ActorOwns), "allow"),
    Rule("finance", "payment", "refund", None, "allow"),
    Rule("*", "payment", "refund", Some(Not(HasRole("finance"))), "deny")]

  lemma ShippedRolesOnlyHelp()
    ensures RolesOnlyHelp(SHIPPED)
  {
  }

  lemma ShippedMoreRolesKeepPermission(x: Context, more: set<string>)
    requires x.roles <= more && Enforce(SHIPPED, x).Permitted?
    ensures Enforce(SHIPPED, x.(roles := more)).Permitted?
  {
    ShippedRolesOnlyHelp();
    MoreRolesKeepPermission(SHIPPED, x, more);
  }

  /** What the shipped policy decides, written out: one line per right, and a refund only for finance. */
  predicate ShippedRight(x: Context) {
    || (x.resourceType == "booking" && ("admin" in x.roles || ("manager" in x.roles && x.action == "approve")))
    || (x.resourceType == "event" && x.action == "read" && "staff" in x.roles && x.actor in x.assignees)
    || (x.resourceType == "profile" && x.action == "update" && "owner" in x.roles && OrEmpty(x.owner) == x.actor)
    || (x.resourceType == "payment" && x.action == "refund" && "finance" in x.roles)
  }

  /** The six rules, wildcards, conditions and the deny rule together, permit exactly that inside the
      actor's own tenant, and nothing across tenants. */
  lemma ShippedDecisionIff(x: Context)
    ensures Enforce(SHIPPED, x).Permitted? <==> !CrossTenant(x) && ShippedRight(x)
  {
    assert Holds(Not(HasRole("finance")), x) <==> "finance" !in x.roles by {
      assert Holds(HasRole("finance"), x) <==> "finance" in x.roles;
    }
    if !CrossTenant(x) {
      assert Applies(SHIPPED[0], x) <==> x.resourceType == "booking" && "admin" in x.roles;
      assert Applies(SHIPPED[1], x) <==> x.resourceType == "booking" && x.action == "approve" && "manager" in x.roles;
      assert Applies(SHIPPED[2], x) <==>
               x.resourceType == "event" && x.action == "read" && "staff" in x.roles && x.actor in x.assignees;
      assert Applies(SHIPPED[3], x) <==>
               x.resourceType == "profile" && x.action == "update" && "owner" in x.roles && OrEmpty(x.owner) == x.actor;
      assert Applies(SHIPPED[4], x) <==> x.resourceType == "payment" && x.action == "refund" && "finance" in x.roles;
      assert Applies(SHIPPED[5], x) <==> x.resourceType == "payment" && x.action == "refund" && "finance" !in x.roles;
    }
  }

  /** A context in which every instance condition of the shipped allow rules holds. */
  function Favourable(roles: set<string>, resourceType: string, action: string): Context {
    Context("u", "t", roles, action, resourceType, Some("u"), {"u"}, Some("t"))
  }

  lemma ShippedRuleIsUsable(i: nat, roles: set<string>, resourceType: string, action: string)
    requires i < |SHIPPED| && Registered(resourceType, action) && Contributes(SHIPPED[i], roles, resourceType, action)
    ensures Enforce(SHIPPED, Favourable(roles, resourceType, action)).Permitted?
  {
    var x := Favourable(roles, resourceType, action);
    assert Applies(SHIPPED[i], x);
    assert SomeRule(SHIPPED, "allow", x);
    if resourceType == "payment" && action == "refund" {
      assert i == 4;
      assert Holds(HasRole("finance"), x);
    }
    var deny := SHIPPED[5];
    assert deny.objType == "payment" && deny.act == "refund" && deny.cond == Some(Not(HasRole("finance")));
    assert !Applies(SHIPPED[5], x);
  }

  /** Under the shipped policy and for every role set, a registered scope is computed exactly when
      those roles are permitted that action in some context. */
  lemma ShippedScopesAreExact(roles: set<string>, resourceType: string, action: string)
    requires Registered(resourceType, action)
    ensures Granted(SHIPPED, roles, ScopeFor(resourceType, action)) <==>
              exists x: Context :: x.roles == roles && x.resourceType == resourceType && x.action == action
                                   && Enforce(SHIPPED, x).Permitted?
  {
    var scope := ScopeFor(resourceType, action);
    if Granted(SHIPPED, roles, scope) {
      var i :| 0 <= i < |SHIPPED| && RuleGrants(SHIPPED[i], roles, scope);
      var t, a :| Contributes(SHIPPED[i], roles, t, a) && scope == ScopeFor(t, a);
      ScopeNamesOnePair(resourceType, action, t, a);
      ShippedRuleIsUsable(i, roles, resourceType, action);
      var x := Favourable(roles, resourceType, action);
      assert x.roles == roles && Enforce(SHIPPED, x).Permitted?;
    }
    forall x: Context | x.roles == roles && x.resourceType == resourceType && x.action == action
                        && Enforce(SHIPPED, x).Permitted?
      ensures Granted(SHIPPED, roles, scope)
    {
      EnforceImpliesScope(SHIPPED, x);
    }
  }
}
