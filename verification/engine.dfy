/** The permission engine (backend/app/authorization/engine.py) and the editing of a role's grants
    (backend/app/authorization/services.py:341-402). */
module Engine {
  import opened Wrappers
  import opened Graphs
  import opened Hierarchy

  type UserId = nat

  const ALLOW := "ALLOW"
  const DENY := "DENY"
  const WILDCARD := "*"

  datatype Scope = Global | Organization | Department | Team | Project | Resource | OtherScope(name: string)

  datatype Grant = Grant(
    pattern: string, effect: string, scope: Scope, source: string, organization: Option<nat>, department: Option<nat>,
    team: Option<nat>, project: Option<nat>, resourceType: Option<string>, resource: Option<nat>)

  datatype Context = Context(
    organization: Option<nat>, department: Option<nat>, team: Option<nat>, project: Option<nat>,
    resourceType: Option<string>, resource: Option<nat>)

  // ----- Wildcards -----

  /** `code.split(".", 1)[0]`: what precedes the first dot, or all of it. */
  function Head(code: string): (h: string)
    ensures '.' !in h
    ensures h == code <==> '.' !in code
  {
    if code == "" || code[0] == '.' then "" else [code[0]] + Head(code[1..])
  }

  predicate EndsWithWildcard(pattern: string) {
    |pattern| >= 2 && pattern[|pattern| - 2..] == ".*"
  }

  function ResourceOf(pattern: string): string
    requires EndsWithWildcard(pattern)
  {
    pattern[..|pattern| - 2]
  }

  predicate PatternMatches(pattern: string, code: string) {
    || pattern == WILDCARD
    || pattern == code
    || (EndsWithWildcard(pattern) && Head(code) == ResourceOf(pattern))
  }

  function Expand(pattern: string, known: set<string>): set<string> {
    if pattern == WILDCARD then known
    else if EndsWithWildcard(pattern) then set c | c in known && Head(c) == ResourceOf(pattern)
    else if pattern in known then {pattern} else {}
  }

  lemma {:induction false} HeadAppend(resource: string, rest: string)
    requires '.' !in resource
    ensures Head(resource + "." + rest) == resource
  {
    if resource == "" {
      assert resource + "." + rest == "." + rest;
    } else {
      assert resource[0] in resource;
      HeadAppend(resource[1..], rest);
      assert (resource + "." + rest)[1..] == resource[1..] + "." + rest;
    }
  }

  /** Expansion lists exactly the known codes the pattern matches, unless the pattern is itself a known code
      written `a.b.*`, which matches itself but is left out of its own expansion. */
  lemma ExpandExactIff(pattern: string, known: set<string>)
    ensures Expand(pattern, known) == (set c | c in known && PatternMatches(pattern, c)) <==>
            !(EndsWithWildcard(pattern) && pattern in known && '.' in ResourceOf(pattern))
  {
    var matched := set c | c in known && PatternMatches(pattern, c);
    if EndsWithWildcard(pattern) {
      var resource := ResourceOf(pattern);
      assert pattern == resource + "." + "*";
      if '.' !in resource { HeadAppend(resource, "*"); }
      if pattern in known && '.' in resource {
        assert pattern in matched && pattern !in Expand(pattern, known);
      }
    }
  }

  /** The code starts with the resource and a dot. */
  predicate Within(code: string, resource: string) {
    |code| > |resource| && code[..|resource| + 1] == resource + "."
  }

  lemma WithinTail(code: string, resource: string)
    requires code != "" && resource != ""
    ensures Within(code, resource) <==> code[0] == resource[0] && Within(code[1..], resource[1..])
  {
    if |code| > |resource| {
      var n := |resource|;
      assert code[..n + 1] == [code[0]] + code[1..][..n];
      assert resource + "." == [resource[0]] + (resource[1..] + ".");
      assert ([code[0]] + code[1..][..n])[1..] == code[1..][..n];
      assert ([resource[0]] + (resource[1..] + "."))[1..] == resource[1..] + ".";
    }
  }

  lemma {:induction false} HeadIff(code: string, resource: string)
    requires '.' !in resource
    ensures Head(code) == resource <==> code == resource || Within(code, resource)
  {
    if code == "" || code[0] == '.' {
      if resource != "" {
        assert resource[0] in resource;
        if code != "" { WithinTail(code, resource); }
      } else if code != "" {
        assert code[..1] == ".";
      }
    } else if resource == "" {
      assert code[..1] == [code[0]] != ".";
    } else {
      assert forall c :: c in resource[1..] ==> c in resource;
      HeadIff(code[1..], resource[1..]);
      WithinTail(code, resource);
      assert code == [code[0]] + code[1..] && resource == [resource[0]] + resource[1..];
    }
  }

  /** What a pattern covers: everything; itself; and, when it is `resource.*` with a plain resource, the resource and
      whatever follows it after a dot. */
  lemma MatchesIff(pattern: string, code: string)
    ensures PatternMatches(pattern, code) <==>
              || pattern == "*" || pattern == code
              || (|pattern| >= 2 && pattern[|pattern| - 2..] == ".*"
                  && var resource := pattern[..|pattern| - 2];
                     '.' !in resource
                     && (code == resource || (|code| > |resource| && code[..|resource| + 1] == resource + ".")))
  {
    if EndsWithWildcard(pattern) && '.' !in ResourceOf(pattern) {
      HeadIff(code, ResourceOf(pattern));
    }
  }

  // ----- Scopes and decisions -----

  predicate ScopeApplies(g: Grant, userOrganization: Option<nat>, ctx: Option<Context>) {
    match g.scope
    case Global => true
    case Organization =>
      var target := if ctx.Some? && ctx.value.organization.Some? then ctx.value.organization else userOrganization;
      g.organization == None || g.organization == target
    case Department => ctx.Some? && g.department.Some? && g.department == ctx.value.department
    case Team => ctx.Some? && g.team.Some? && g.team == ctx.value.team
    case Project => ctx.Some? && g.project.Some? && g.project == ctx.value.project
    case Resource => ctx.Some? && g.resourceType.Some? && g.resourceType == ctx.value.resourceType
                     && g.resource.Some? && g.resource == ctx.value.resource
    case OtherScope(_) => false
  }

  datatype Decision = Decision(allowed: bool, reason: Option<Grant>)

  predicate Bears(g: Grant, permission: string, userOrganization: Option<nat>, ctx: Option<Context>) {
    PatternMatches(g.pattern, permission) && ScopeApplies(g, userOrganization, ctx)
  }

  function Applicable(grants: seq<Grant>, permission: string, userOrganization: Option<nat>,
                      ctx: Option<Context>): seq<Grant> {
    if grants == [] then []
    else (if Bears(grants[0], permission, userOrganization, ctx) then [grants[0]] else [])
         + Applicable(grants[1..], permission, userOrganization, ctx)
  }

  function WithEffect(grants: seq<Grant>, effect: string): seq<Grant> {
    if grants == [] then []
    else (if grants[0].effect == effect then [grants[0]] else []) + WithEffect(grants[1..], effect)
  }

  function FirstExact(grants: seq<Grant>, permission: string): Option<Grant> {
    if grants == [] then None
    else if grants[0].pattern == permission then Some(grants[0])
    else FirstExact(grants[1..], permission)
  }

  /** Explicit deny, then allow, then deny by default. */
  function Evaluate(grants: seq<Grant>, permission: string, userOrganization: Option<nat>,
                    ctx: Option<Context>): Decision {
    var matching := Applicable(grants, permission, userOrganization, ctx);
    var denies, allows := WithEffect(matching, DENY), WithEffect(matching, ALLOW);
    if denies != [] then Decision(false, Some(denies[0]))
    else if allows != [] then
      var exact := FirstExact(allows, permission);
      Decision(true, Some(if exact.Some? then exact.value else allows[0]))
    else Decision(false, None)
  }

  lemma {:induction false} ApplicableHas(grants: seq<Grant>, permission: string, org: Option<nat>, ctx: Option<Context>)
    ensures forall g :: g in Applicable(grants, permission, org, ctx) <==> g in grants && Bears(g, permission, org, ctx)
  {
    if grants != [] {
      ApplicableHas(grants[1..], permission, org, ctx);
      assert grants == [grants[0]] + grants[1..];
    }
  }

  lemma {:induction false} WithEffectHas(grants: seq<Grant>, effect: string)
    ensures forall g :: g in WithEffect(grants, effect) <==> g in grants && g.effect == effect
  {
    if grants != [] {
      WithEffectHas(grants[1..], effect);
      assert grants == [grants[0]] + grants[1..];
    }
  }

  lemma {:induction false} FirstExactHas(grants: seq<Grant>, permission: string)
    ensures FirstExact(grants, permission).None? <==> forall g :: g in grants ==> g.pattern != permission
    ensures FirstExact(grants, permission).Some? ==>
              && FirstExact(grants, permission).value in grants
              && FirstExact(grants, permission).value.pattern == permission
  {
    if grants != [] {
      FirstExactHas(grants[1..], permission);
      assert grants == [grants[0]] + grants[1..];
    }
  }

  ghost predicate SomeBearing(grants: seq<Grant>, effect: string, permission: string, org: Option<nat>,
                              ctx: Option<Context>) {
    exists g :: g in grants && g.effect == effect && Bears(g, permission, org, ctx)
  }

  /** Allowed iff some bearing grant allows and none denies; the grant named as the reason is one of them,
      and an exact one whenever an exact one allows. */
  lemma EvaluateIff(grants: seq<Grant>, permission: string, org: Option<nat>, ctx: Option<Context>)
    ensures var d := Evaluate(grants, permission, org, ctx);
            && (d.allowed <==>
                 SomeBearing(grants, ALLOW, permission, org, ctx) && !SomeBearing(grants, DENY, permission, org, ctx))
            && (d.reason.None? <==>
                 !SomeBearing(grants, ALLOW, permission, org, ctx) && !SomeBearing(grants, DENY, permission, org, ctx))
            && (d.reason.Some? ==>
                  && d.reason.value in grants && Bears(d.reason.value, permission, org, ctx)
                  && d.reason.value.effect == if d.allowed then ALLOW else DENY)
            && (d.allowed && d.reason.value.pattern != permission ==>
                  forall g :: g in grants && Bears(g, permission, org, ctx) && g.effect == ALLOW ==>
                      g.pattern != permission)
  {
    var matching := Applicable(grants, permission, org, ctx);
    ApplicableHas(grants, permission, org, ctx);
    WithEffectHas(matching, DENY);
    WithEffectHas(matching, ALLOW);
    var denies, allows := WithEffect(matching, DENY), WithEffect(matching, ALLOW);
    FirstExactHas(allows, permission);
    assert denies != [] ==> denies[0] in denies;
    assert allows != [] ==> allows[0] in allows;
  }

  /** The decision depends on which grants there are, not on their order or multiplicity. */
  lemma OrderIrrelevant(xs: seq<Grant>, ys: seq<Grant>, permission: string, org: Option<nat>, ctx: Option<Context>)
    requires forall g :: g in xs <==> g in ys
    ensures Evaluate(xs, permission, org, ctx).allowed == Evaluate(ys, permission, org, ctx).allowed
  {
    EvaluateIff(xs, permission, org, ctx);
    EvaluateIff(ys, permission, org, ctx);
  }

  // ----- What each scope means -----

  /** A grant whose code is asked for and whose effect is to allow. */
  predicate AllowsCode(g: Grant, permission: string) {
    g.effect == ALLOW && g.pattern == permission
  }

  lemma AloneIff(g: Grant, permission: string, org: Option<nat>, ctx: Option<Context>)
    requires AllowsCode(g, permission)
    ensures Evaluate([g], permission, org, ctx).allowed <==> ScopeApplies(g, org, ctx)
  {
    EvaluateIff([g], permission, org, ctx);
    assert g in [g] && ALLOW != DENY;
  }

  /** A grant out of scope changes no decision: neither what is allowed nor the reason given. */
  lemma {:induction false} OutOfScopeIsIdle(grants: seq<Grant>, g: Grant, permission: string, org: Option<nat>,
                                            ctx: Option<Context>)
    requires !ScopeApplies(g, org, ctx)
    ensures Applicable(grants + [g], permission, org, ctx) == Applicable(grants, permission, org, ctx)
    ensures Evaluate(grants + [g], permission, org, ctx) == Evaluate(grants, permission, org, ctx)
  {
    if grants != [] {
      OutOfScopeIsIdle(grants[1..], g, permission, org, ctx);
      assert (grants + [g])[1..] == grants[1..] + [g];
    }
  }

  /** A global grant decides everywhere. */
  lemma GlobalDecides(g: Grant, permission: string, org: Option<nat>, ctx: Option<Context>)
    requires g.scope == Global && AllowsCode(g, permission)
    ensures Evaluate([g], permission, org, ctx).allowed
  {
    AloneIff(g, permission, org, ctx);
  }

  /** An organization grant decides exactly when it names no organization, or the one that the request is about: the
      context's if it names one, the user's otherwise. */
  lemma OrganizationDecidesIff(g: Grant, permission: string, org: Option<nat>, ctx: Option<Context>)
    requires g.scope == Organization && AllowsCode(g, permission)
    ensures Evaluate([g], permission, org, ctx).allowed <==>
              || g.organization.None?
              || (if ctx.Some? && ctx.value.organization.Some? then g.organization == ctx.value.organization
                  else g.organization == org)
  {
    AloneIff(g, permission, org, ctx);
  }

  /** Whatever its effect, it is idle where another organization is meant: a tenant's grant stays in that tenant. */
  lemma OtherOrganizationIsIdle(grants: seq<Grant>, g: Grant, permission: string, org: Option<nat>,
                                ctx: Option<Context>)
    requires g.scope == Organization && g.organization.Some?
    requires if ctx.Some? && ctx.value.organization.Some? then g.organization != ctx.value.organization
             else g.organization != org
    ensures Evaluate(grants + [g], permission, org, ctx) == Evaluate(grants, permission, org, ctx)
  {
    OutOfScopeIsIdle(grants, g, permission, org, ctx);
  }

  /** The context names the grant's own department, team, project, or resource type and id. */
  predicate NamesTarget(g: Grant, ctx: Context) {
    || (g.scope == Department && ctx.department.Some? && ctx.department == g.department)
    || (g.scope == Team && ctx.team.Some? && ctx.team == g.team)
    || (g.scope == Project && ctx.project.Some? && ctx.project == g.project)
    || (g.scope == Resource && ctx.resourceType.Some? && ctx.resourceType == g.resourceType
        && ctx.resource.Some? && ctx.resource == g.resource)
  }

  /** A narrower grant decides exactly when the request names that same target, and is idle otherwise. */
  lemma NarrowDecidesIff(grants: seq<Grant>, g: Grant, permission: string, org: Option<nat>, ctx: Option<Context>)
    requires g.scope != Global && g.scope != Organization
    ensures AllowsCode(g, permission) ==>
              (Evaluate([g], permission, org, ctx).allowed <==> ctx.Some? && NamesTarget(g, ctx.value))
    ensures !(ctx.Some? && NamesTarget(g, ctx.value)) ==>
              Evaluate(grants + [g], permission, org, ctx) == Evaluate(grants, permission, org, ctx)
  {
    if AllowsCode(g, permission) {
      AloneIff(g, permission, org, ctx);
    }
    if !(ctx.Some? && NamesTarget(g, ctx.value)) {
      OutOfScopeIsIdle(grants, g, permission, org, ctx);
    }
  }

  // ----- Resolving a user's grants -----

  const DELETED := "DELETED"

  datatype Role = Role(name: string, status: string)

  /** `code` is None when the permission row is gone. */
  datatype RolePermission = RolePermission(role: RoleId, code: Option<string>, effect: Option<string>)

  datatype Assignment = Assignment(
    user: UserId, role: RoleId, scope: Scope, organization: Option<nat>, department: Option<nat>, team: Option<nat>,
    project: Option<nat>, resourceType: Option<string>, resource: Option<nat>, expiresAt: Option<Time>)

  datatype World = World(
    legacy: map<UserId, (string, set<string>)>, edges: seq<Edge>, roles: map<RoleId, Role>,
    permissions: seq<RolePermission>, assignments: seq<Assignment>)

  predicate Lapsed(a: Assignment, now: Time) {
    a.expiresAt.Some? && a.expiresAt.value <= now
  }

  function LegacyGrant(name: string, code: string): Grant {
    Grant(code, ALLOW, Global, "legacy:" + name, None, None, None, None, None, None)
  }

  function GrantFor(a: Assignment, source: string, code: string, effect: string): Grant {
    Grant(code, effect, a.scope, source, a.organization, a.department, a.team, a.project, a.resourceType, a.resource)
  }

  ghost function LegacyGrants(w: World, user: UserId): set<Grant> {
    if user in w.legacy then set code | code in w.legacy[user].1 :: LegacyGrant(w.legacy[user].0, code) else {}
  }

  predicate Usable(w: World, p: RolePermission) {
    p.role in w.roles && w.roles[p.role].status != DELETED && p.code.Some?
  }

  /** What one assignment contributes: its role's permissions and those of every role below it. */
  ghost function GrantsVia(w: World, a: Assignment): set<Grant> {
    set p | p in w.permissions && Usable(w, p) && ReachesOrIs(Arcs(w.edges), a.role, p.role)
      :: GrantFor(a, w.roles[p.role].name, p.code.value, p.effect.GetOr(ALLOW))
  }

  ghost function GrantsViaAll(w: World, user: UserId, assignments: seq<Assignment>, now: Time): set<Grant> {
    set a, g | a in assignments && a.user == user && !Lapsed(a, now) && g in GrantsVia(w, a) :: g
  }

  ghost function Resolved(w: World, user: UserId, now: Time): set<Grant> {
    LegacyGrants(w, user) + GrantsViaAll(w, user, w.assignments, now)
  }

  ghost function Elements(grants: seq<Grant>): set<Grant> {
    set g | g in grants
  }

  /** Later, a user holds what they held minus what came only from assignments that lapsed in between. */
  lemma LapsesOnly(w: World, user: UserId, early: Time, late: Time)
    requires early <= late
    ensures Resolved(w, user, late) <= Resolved(w, user, early)
    ensures forall g :: g in Resolved(w, user, early) - Resolved(w, user, late) ==>
              exists a :: a in w.assignments && a.user == user && g in GrantsVia(w, a)
                       && a.expiresAt.Some? && early < a.expiresAt.value <= late
  {
    forall g | g in Resolved(w, user, early) - Resolved(w, user, late)
      ensures exists a :: a in w.assignments && a.user == user && g in GrantsVia(w, a)
                       && a.expiresAt.Some? && early < a.expiresAt.value <= late
    {
      var a :| a in w.assignments && a.user == user && !Lapsed(a, early) && g in GrantsVia(w, a);
      assert Lapsed(a, late);
    }
  }

  /** Each resolved grant is a row of the tables: the code and effect of one usable permission row, within the scope
      and targets of one of the user's own unlapsed assignments; or a built-in code, allowed everywhere. */
  lemma ResolvedComesFromRows(w: World, user: UserId, now: Time, g: Grant)
    requires g in Resolved(w, user, now)
    ensures || (g.effect == ALLOW && g.scope == Global && user in w.legacy && g.pattern in w.legacy[user].1)
            || exists a, p :: a in w.assignments && p in w.permissions && CarriedBy(w, user, now, g, a, p)
  {
    if g !in LegacyGrants(w, user) {
      var a :| a in w.assignments && a.user == user && !Lapsed(a, now) && g in GrantsVia(w, a);
      var p :| p in w.permissions && Usable(w, p) && ReachesOrIs(Arcs(w.edges), a.role, p.role)
               && g == GrantFor(a, w.roles[p.role].name, p.code.value, p.effect.GetOr(ALLOW));
      assert CarriedBy(w, user, now, g, a, p);
    }
  }

  /** And each such row is resolved. */
  lemma RowsAreResolved(w: World, user: UserId, now: Time, a: Assignment, p: RolePermission)
    requires a in w.assignments && a.user == user && (a.expiresAt.Some? ==> now < a.expiresAt.value)
    requires p in w.permissions && p.role in w.roles && w.roles[p.role].status != "DELETED" && p.code.Some?
    requires ReachesOrIs(Arcs(w.edges), a.role, p.role)
    ensures exists g :: g in Resolved(w, user, now) && CarriedBy(w, user, now, g, a, p)
  {
    var g := GrantFor(a, w.roles[p.role].name, p.code.value, p.effect.GetOr(ALLOW));
    assert Usable(w, p) && g in GrantsVia(w, a) && !Lapsed(a, now);
    assert CarriedBy(w, user, now, g, a, p);
  }

  lemma BuiltInIsResolved(w: World, user: UserId, now: Time, code: string)
    requires user in w.legacy && code in w.legacy[user].1
    ensures exists g :: g in Resolved(w, user, now) && g.pattern == code && g.effect == ALLOW && g.scope == Global
  {
    assert LegacyGrant(w.legacy[user].0, code) in LegacyGrants(w, user);
  }

  ghost predicate CarriedBy(w: World, user: UserId, now: Time, g: Grant, a: Assignment, p: RolePermission) {
    && a.user == user && (a.expiresAt.Some? ==> now < a.expiresAt.value)
    && ReachesOrIs(Arcs(w.edges), a.role, p.role)
    && p.role in w.roles && w.roles[p.role].status != "DELETED" && p.code == Some(g.pattern)
    && g.effect == (if p.effect.Some? then p.effect.value else "ALLOW")
    && g.scope == a.scope && g.organization == a.organization && g.department == a.department && g.team == a.team
    && g.project == a.project && g.resourceType == a.resourceType && g.resource == a.resource
  }

  method LegacyOf(w: World, user: UserId) returns (grants: seq<Grant>)
    ensures Elements(grants) == LegacyGrants(w, user)
  {
    grants := [];
    if user in w.legacy {
      var (name, codes) := w.legacy[user];
      var todo := codes;
      while todo != {}
        invariant todo <= codes
        invariant Elements(grants) == set code | code in codes - todo :: LegacyGrant(name, code)
      {
        var code :| code in todo;
        assert codes - (todo - {code}) == (codes - todo) + {code};
        assert Elements(grants + [LegacyGrant(name, code)]) == Elements(grants) + {LegacyGrant(name, code)};
        grants := grants + [LegacyGrant(name, code)];
        todo := todo - {code};
      }
    }
  }

  /** One assignment: every role it inherits, every permission row of that role. */
  method GrantsOf(w: World, a: Assignment) returns (grants: seq<Grant>)
    ensures Elements(grants) == GrantsVia(w, a)
  {
    grants := [];
    var below := Descendants(w.edges, a.role);
    var roles := {a.role} + below;
    var todo := roles;
    while todo != {}
      invariant todo <= roles
      invariant forall g :: g in grants <==>
          exists p :: p in w.permissions && ViaRow(w, a, p, g) && p.role in roles - todo
    {
      var role :| role in todo;
      ghost var before := grants;
      for i := 0 to |w.permissions|
        invariant forall g :: g in grants <==>
          (g in before || exists j :: 0 <= j < i && ViaRow(w, a, w.permissions[j], g) && w.permissions[j].role == role)
      {
        var p := w.permissions[i];
        if p.role == role && Usable(w, p) {
          grants := grants + [GrantFor(a, w.roles[role].name, p.code.value, p.effect.GetOr(ALLOW))];
        }
      }
      todo := todo - {role};
    }
    forall g ensures g in grants <==> g in GrantsVia(w, a) {
      if g in grants {
        var p :| p in w.permissions && ViaRow(w, a, p, g) && p.role in roles;
      }
      if g in GrantsVia(w, a) {
        var p :| p in w.permissions && Usable(w, p) && ReachesOrIs(Arcs(w.edges), a.role, p.role)
              && g == GrantFor(a, w.roles[p.role].name, p.code.value, p.effect.GetOr(ALLOW));
        assert ViaRow(w, a, p, g);
      }
    }
  }

  ghost predicate ViaRow(w: World, a: Assignment, p: RolePermission, g: Grant) {
    Usable(w, p) && g == GrantFor(a, w.roles[p.role].name, p.code.value, p.effect.GetOr(ALLOW))
  }

  /** Legacy grants, then every unlapsed assignment expanded through the hierarchy. */
  method ResolveGrants(w: World, user: UserId, now: Time) returns (grants: seq<Grant>)
    ensures Elements(grants) == Resolved(w, user, now)
  {
    grants := LegacyOf(w, user);
    for i := 0 to |w.assignments|
      invariant Elements(grants) == LegacyGrants(w, user) + GrantsViaAll(w, user, w.assignments[..i], now)
    {
      var a := w.assignments[i];
      assert w.assignments[..i + 1] == w.assignments[..i] + [a];
      ghost var before := grants;
      if a.user == user && !Lapsed(a, now) {
        var more := GrantsOf(w, a);
        grants := grants + more;
        assert Elements(grants) == Elements(before) + GrantsVia(w, a);
        assert GrantsViaAll(w, user, w.assignments[..i + 1], now)
            == GrantsViaAll(w, user, w.assignments[..i], now) + GrantsVia(w, a);
      } else {
        assert GrantsViaAll(w, user, w.assignments[..i + 1], now) == GrantsViaAll(w, user, w.assignments[..i], now);
      }
    }
    assert w.assignments[..|w.assignments|] == w.assignments;
  }

  // ----- Editing a role's grants -----

  /** A role's grant row: its identity survives a change of effect. */
  datatype GrantRow = GrantRow(id: nat, effect: string)

  class RoleGrants {
    var rows: map<string, GrantRow>
    var nextId: nat

    constructor ()
      ensures rows == map[] && nextId == 0
    {
      rows, nextId := map[], 0;
    }

    /** Allowed codes first, then denied codes over them. */
    method DesiredEffects(allow: seq<string>, deny: seq<string>) returns (desired: map<string, string>)
      ensures desired.Keys == set c | c in allow + deny
      ensures forall c :: c in desired ==> desired[c] == if c in deny then DENY else ALLOW
    {
      desired := map[];
      for i := 0 to |allow|
        invariant forall c :: c in desired <==> c in allow[..i]
        invariant forall c :: c in desired ==> desired[c] == ALLOW
      {
        desired := desired[allow[i] := ALLOW];
      }
      assert allow[..|allow|] == allow;
      for i := 0 to |deny|
        invariant forall c :: c in desired <==> c in allow || c in deny[..i]
        invariant forall c :: c in desired ==> desired[c] == if c in deny[..i] then DENY else ALLOW
      {
        desired := desired[deny[i] := DENY];
      }
      assert deny[..|deny|] == deny;
    }

    /** Reconciles the rows with the desired effects, keeping rows that only change effect. */
    method SetPermissions(catalog: set<string>, allow: seq<string>, deny: seq<string>) returns (r: Result<(), string>)
      modifies this
      ensures r.Err? <==> exists c :: (c in allow || c in deny) && c !in catalog
      ensures r.Err? ==>
          rows == old(rows) && nextId == old(nextId) && r.error !in catalog && (r.error in allow || r.error in deny)
      ensures r.Ok? ==> rows.Keys == (set c | c in allow + deny)
      ensures r.Ok? ==> forall c :: c in rows ==> rows[c].effect == if c in deny then DENY else ALLOW
      ensures r.Ok? ==> forall c :: c in rows ==>
                if c in old(rows) then rows[c].id == old(rows)[c].id else old(nextId) <= rows[c].id < nextId
    {
      var desired := DesiredEffects(allow, deny);
      var todo := desired.Keys;
      while todo != {}
        invariant todo <= desired.Keys
        invariant forall c :: c in desired.Keys - todo ==> c in catalog
      {
        var c :| c in todo;
        if c !in catalog {
          return Err(c);
        }
        todo := todo - {c};
      }
      Upsert(desired);
      Prune(desired.Keys);
      return Ok(());
    }

    method Upsert(desired: map<string, string>)
      modifies this
      ensures old(nextId) <= nextId
      ensures rows.Keys == old(rows).Keys + desired.Keys
      ensures forall c :: c in desired ==> rows[c].effect == desired[c]
      ensures forall c :: c in rows && c !in desired ==> rows[c] == old(rows)[c]
      ensures forall c :: c in rows ==>
                if c in old(rows) then rows[c].id == old(rows)[c].id else old(nextId) <= rows[c].id < nextId
    {
      var current := rows;
      var todo := desired.Keys;
      while todo != {}
        invariant todo <= desired.Keys
        invariant old(nextId) <= nextId
        invariant rows.Keys == current.Keys + (desired.Keys - todo)
        invariant forall c :: c in desired.Keys - todo ==> rows[c].effect == desired[c]
        invariant forall c :: c in rows && c !in desired.Keys - todo ==> rows[c] == current[c]
        invariant forall c :: c in rows ==>
          if c in current then rows[c].id == current[c].id else old(nextId) <= rows[c].id < nextId
      {
        var c :| c in todo;
        if c !in current {
          rows := rows[c := GrantRow(nextId, desired[c])];
          nextId := nextId + 1;
        } else if current[c].effect != desired[c] {
          rows := rows[c := GrantRow(current[c].id, desired[c])];
        }
        todo := todo - {c};
      }
    }

    method Prune(keep: set<string>)
      modifies this`rows
      ensures rows == map c | c in old(rows) && c in keep :: old(rows)[c]
    {
      var current := rows;
      var todo := current.Keys;
      while todo != {}
        invariant todo <= current.Keys
        invariant rows == map c | c in current && (c in keep || c in todo) :: current[c]
      {
        var c :| c in todo;
        if c !in keep {
          rows := rows - {c};
        }
        todo := todo - {c};
      }
    }
  }
}
