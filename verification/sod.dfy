/** The separation-of-duties scan (backend/app/governance/services.py:69-98, 167-227). */
module SoD {
  import opened Wrappers
  import opened Graphs
  import opened Hierarchy
  import opened Engine

  type RuleId = nat

  const ARCHIVED := "ARCHIVED"

  datatype Rule = Rule(id: RuleId, active: bool, toxic: bool, first: set<string>, second: set<string>)
  datatype Kind = SodViolation | ToxicPermission | OtherKind
  datatype Finding = Finding(kind: Kind, user: UserId, rule: RuleId, open: bool, matchedFirst: set<string>,
                             matchedSecond: set<string>)
  datatype User = User(id: UserId, active: bool)

  /** A role's permission codes and those of every role below it, whatever effect their rows carry. */
  ghost function EffectiveCodes(w: World, role: RoleId): set<string> {
    set p | p in w.permissions && p.role in w.roles && p.code.Some? && ReachesOrIs(Arcs(w.edges), role, p.role) ::
      p.code.value
  }

  predicate Counts(w: World, a: Assignment, user: UserId, now: Time) {
    && a.user == user && a.role in w.roles && w.roles[a.role].status != DELETED && w.roles[a.role].status != ARCHIVED
    && (a.expiresAt.None? || a.expiresAt.value > now)
  }

  ghost function UserCodes(w: World, user: UserId, now: Time): set<string> {
    set a, c | a in w.assignments && Counts(w, a, user, now) && c in EffectiveCodes(w, a.role) :: c
  }

  /** The scan reads a DENY row as a held permission: rewriting every effect changes no one's codes. */
  lemma EffectsDoNotMatter(w: World, v: World, user: UserId, now: Time)
    requires v == w.(permissions := v.permissions) && |v.permissions| == |w.permissions|
    requires forall i :: 0 <= i < |w.permissions| ==>
        v.permissions[i] == w.permissions[i].(effect := v.permissions[i].effect)
    ensures UserCodes(v, user, now) == UserCodes(w, user, now)
  {
    forall role ensures EffectiveCodes(v, role) == EffectiveCodes(w, role) {
      forall c ensures c in EffectiveCodes(v, role) <==> c in EffectiveCodes(w, role) {
        if c in EffectiveCodes(v, role) {
          var i :| 0 <= i < |v.permissions| && v.permissions[i].role in w.roles && v.permissions[i].code == Some(c)
                   && ReachesOrIs(Arcs(w.edges), role, v.permissions[i].role);
          assert w.permissions[i] in w.permissions;
        }
        if c in EffectiveCodes(w, role) {
          var i :| 0 <= i < |w.permissions| && w.permissions[i].role in w.roles && w.permissions[i].code == Some(c)
                   && ReachesOrIs(Arcs(w.edges), role, w.permissions[i].role);
          assert v.permissions[i] in v.permissions;
        }
      }
    }
  }

  // ----- The scan against the engine -----

  /** A role's permission row counts for the code, in the engine's eyes, as one of this effect. */
  predicate BearsAs(w: World, a: Assignment, p: RolePermission, effect: string, code: string, org: Option<nat>,
                    ctx: Option<Context>)
  {
    && Usable(w, p) && p.effect.GetOr(ALLOW) == effect
    && Bears(GrantFor(a, w.roles[p.role].name, p.code.value, effect), code, org, ctx)
  }

  /** Some unlapsed assignment of the user reaches such a row. */
  ghost predicate RowBears(w: World, user: UserId, now: Time, effect: string, code: string, org: Option<nat>,
                           ctx: Option<Context>)
  {
    exists a, p :: a in w.assignments && a.user == user && !Lapsed(a, now) && p in w.permissions
                && ReachesOrIs(Arcs(w.edges), a.role, p.role) && BearsAs(w, a, p, effect, code, org, ctx)
  }

  predicate LegacyBears(w: World, user: UserId, code: string) {
    user in w.legacy && exists c :: c in w.legacy[user].1 && PatternMatches(c, code)
  }

  lemma LegacyBearsIff(w: World, user: UserId, effect: string, code: string, org: Option<nat>, ctx: Option<Context>)
    ensures (exists g :: g in LegacyGrants(w, user) && g.effect == effect && Bears(g, code, org, ctx)) <==>
            effect == ALLOW && LegacyBears(w, user, code)
  {
    if effect == ALLOW && LegacyBears(w, user, code) {
      var c :| c in w.legacy[user].1 && PatternMatches(c, code);
      assert LegacyGrant(w.legacy[user].0, c) in LegacyGrants(w, user);
    }
  }

  lemma RowBearsIff(w: World, user: UserId, now: Time, effect: string, code: string, org: Option<nat>,
                    ctx: Option<Context>)
    ensures (exists g :: g in GrantsViaAll(w, user, w.assignments, now) && g.effect == effect
                      && Bears(g, code, org, ctx))
            <==> RowBears(w, user, now, effect, code, org, ctx)
  {
    if g :| g in GrantsViaAll(w, user, w.assignments, now) && g.effect == effect && Bears(g, code, org, ctx) {
      var a :| a in w.assignments && a.user == user && !Lapsed(a, now) && g in GrantsVia(w, a);
      var p :| p in w.permissions && Usable(w, p) && ReachesOrIs(Arcs(w.edges), a.role, p.role)
               && g == GrantFor(a, w.roles[p.role].name, p.code.value, p.effect.GetOr(ALLOW));
      assert BearsAs(w, a, p, effect, code, org, ctx);
    }
    if RowBears(w, user, now, effect, code, org, ctx) {
      var a, p :| a in w.assignments && a.user == user && !Lapsed(a, now) && p in w.permissions
                  && ReachesOrIs(Arcs(w.edges), a.role, p.role) && BearsAs(w, a, p, effect, code, org, ctx);
      var g := GrantFor(a, w.roles[p.role].name, p.code.value, p.effect.GetOr(ALLOW));
      assert g in GrantsVia(w, a);
      assert g in GrantsViaAll(w, user, w.assignments, now);
    }
  }

  lemma SomeBearingIff(w: World, user: UserId, now: Time, grants: seq<Grant>, effect: string, code: string,
                       org: Option<nat>, ctx: Option<Context>)
    requires Elements(grants) == Resolved(w, user, now)
    ensures SomeBearing(grants, effect, code, org, ctx) <==>
            RowBears(w, user, now, effect, code, org, ctx) || (effect == ALLOW && LegacyBears(w, user, code))
  {
    assert forall g :: g in grants <==> g in Elements(grants);
    LegacyBearsIff(w, user, effect, code, org, ctx);
    RowBearsIff(w, user, now, effect, code, org, ctx);
  }

  /** The engine's answer, read off the tables: for any code, scope and time, whatever order resolution lists the
      grants in. */
  lemma EngineAllowsIff(w: World, user: UserId, now: Time, grants: seq<Grant>, code: string, org: Option<nat>,
                        ctx: Option<Context>)
    requires Elements(grants) == Resolved(w, user, now)
    ensures Evaluate(grants, code, org, ctx).allowed <==>
              && (RowBears(w, user, now, ALLOW, code, org, ctx) || LegacyBears(w, user, code))
              && !RowBears(w, user, now, DENY, code, org, ctx)
  {
    EvaluateIff(grants, code, org, ctx);
    SomeBearingIff(w, user, now, grants, ALLOW, code, org, ctx);
    SomeBearingIff(w, user, now, grants, DENY, code, org, ctx);
    assert ALLOW != DENY;
  }

  /** What the scan reads: some counting assignment of the user reaches a row with exactly this code. */
  ghost predicate RowCounts(w: World, user: UserId, now: Time, code: string) {
    exists a, p :: a in w.assignments && a.user == user && (a.expiresAt.Some? ==> now < a.expiresAt.value)
                && a.role in w.roles && w.roles[a.role].status != "DELETED" && w.roles[a.role].status != "ARCHIVED"
                && p in w.permissions && p.role in w.roles && p.code == Some(code)
                && ReachesOrIs(Arcs(w.edges), a.role, p.role)
  }

  lemma HeldIff(w: World, user: UserId, now: Time, code: string)
    ensures code in UserCodes(w, user, now) <==> RowCounts(w, user, now, code)
  {
    if code in UserCodes(w, user, now) {
      var a :| a in w.assignments && Counts(w, a, user, now) && code in EffectiveCodes(w, a.role);
      var p :| p in w.permissions && p.role in w.roles && p.code.Some?
               && ReachesOrIs(Arcs(w.edges), a.role, p.role) && p.code.value == code;
    }
    if RowCounts(w, user, now, code) {
      var a, p :| a in w.assignments && Counts(w, a, user, now) && p in w.permissions && p.role in w.roles
                  && ReachesOrIs(Arcs(w.edges), a.role, p.role) && p.code == Some(code);
      assert code in EffectiveCodes(w, a.role);
    }
  }

  /** The scan counts a code that the engine refuses exactly when a row with the code counts, and either some row
      denies the code or none, nor the user's built-in role, allows it in this scope. */
  lemma HeldButRefusedIff(w: World, user: UserId, now: Time, grants: seq<Grant>, code: string, org: Option<nat>,
                          ctx: Option<Context>)
    requires Elements(grants) == Resolved(w, user, now)
    ensures code in UserCodes(w, user, now) && !Evaluate(grants, code, org, ctx).allowed <==>
              && RowCounts(w, user, now, code)
              && (RowBears(w, user, now, DENY, code, org, ctx)
                  || !(RowBears(w, user, now, ALLOW, code, org, ctx) || LegacyBears(w, user, code)))
  {
    HeldIff(w, user, now, code);
    EngineAllowsIff(w, user, now, grants, code, org, ctx);
  }

  /** The engine allows a code that the scan does not count exactly when some row or the built-in role allows it, no
      row denies it, and no row with exactly this code counts. */
  lemma AllowedButUnseenIff(w: World, user: UserId, now: Time, grants: seq<Grant>, code: string, org: Option<nat>,
                            ctx: Option<Context>)
    requires Elements(grants) == Resolved(w, user, now)
    ensures Evaluate(grants, code, org, ctx).allowed && code !in UserCodes(w, user, now) <==>
              && (RowBears(w, user, now, ALLOW, code, org, ctx) || LegacyBears(w, user, code))
              && !RowBears(w, user, now, DENY, code, org, ctx)
              && !RowCounts(w, user, now, code)
  {
    HeldIff(w, user, now, code);
    EngineAllowsIff(w, user, now, grants, code, org, ctx);
  }

  // ----- Inputs on which they differ -----

  /** A user with one assignment, everywhere, to role 1; role 2 inherits below it and carries the only row. */
  function Inherited(user: UserId, parent: Role, child: Role, row: RolePermission): World {
    World(map[], [Edge(0, 1, 2)], map[1 := parent, 2 := child], [row],
          [Assignment(user, 1, Global, None, None, None, None, None, None, None)])
  }

  lemma InheritedRow(user: UserId, parent: Role, child: Role, row: RolePermission, now: Time)
    requires row.role == 2
    ensures var w := Inherited(user, parent, child, row); var a := w.assignments[0];
            && a in w.assignments && a.user == user && !Lapsed(a, now) && row in w.permissions
            && ReachesOrIs(Arcs(w.edges), a.role, row.role)
  {
    var w := Inherited(user, parent, child, row);
    assert w.edges[0] in w.edges && (1, 2) in Arcs(w.edges);
    Hop(Arcs(w.edges), 1, 2);
  }

  /** A denied code is counted as held. */
  lemma DeniedButHeld(user: UserId, parent: Role, child: Role, code: string, now: Time, grants: seq<Grant>,
                      org: Option<nat>, ctx: Option<Context>)
    requires parent.status != DELETED && parent.status != ARCHIVED && child.status != DELETED
    requires var row := RolePermission(2, Some(code), Some(DENY));
             Elements(grants) == Resolved(Inherited(user, parent, child, row), user, now)
    ensures var row := RolePermission(2, Some(code), Some(DENY));
            code in UserCodes(Inherited(user, parent, child, row), user, now)
    ensures !Evaluate(grants, code, org, ctx).allowed
  {
    var row := RolePermission(2, Some(code), Some(DENY));
    var w := Inherited(user, parent, child, row);
    InheritedRow(user, parent, child, row, now);
    assert BearsAs(w, w.assignments[0], row, DENY, code, org, ctx);
    assert RowCounts(w, user, now, code);
    HeldButRefusedIff(w, user, now, grants, code, org, ctx);
  }

  /** So is a code that only a DELETED inherited role allows, which the engine skips; nothing denies it. */
  lemma DeletedButHeld(user: UserId, parent: Role, child: Role, code: string, now: Time, grants: seq<Grant>,
                       org: Option<nat>, ctx: Option<Context>)
    requires parent.status != DELETED && parent.status != ARCHIVED && child.status == DELETED
    requires var row := RolePermission(2, Some(code), Some(ALLOW));
             Elements(grants) == Resolved(Inherited(user, parent, child, row), user, now)
    ensures var row := RolePermission(2, Some(code), Some(ALLOW));
            code in UserCodes(Inherited(user, parent, child, row), user, now)
    ensures !Evaluate(grants, code, org, ctx).allowed
  {
    var row := RolePermission(2, Some(code), Some(ALLOW));
    var w := Inherited(user, parent, child, row);
    InheritedRow(user, parent, child, row, now);
    assert RowCounts(w, user, now, code);
    assert forall p :: p in w.permissions ==> !Usable(w, p);
    assert !LegacyBears(w, user, code);
    HeldButRefusedIff(w, user, now, grants, code, org, ctx);
  }

  /** A wildcard row grants every code it matches, and the scan sees only the pattern itself. */
  lemma WildcardUnseen(user: UserId, parent: Role, child: Role, pattern: string, code: string, now: Time,
                       grants: seq<Grant>, org: Option<nat>, ctx: Option<Context>)
    requires child.status != DELETED && PatternMatches(pattern, code) && pattern != code
    requires var row := RolePermission(2, Some(pattern), Some(ALLOW));
             Elements(grants) == Resolved(Inherited(user, parent, child, row), user, now)
    ensures Evaluate(grants, code, org, ctx).allowed
    ensures var row := RolePermission(2, Some(pattern), Some(ALLOW));
            code !in UserCodes(Inherited(user, parent, child, row), user, now)
  {
    OnlyRowAllows(user, parent, child, pattern, code, now, grants, org, ctx);
  }

  /** An assignment to an ARCHIVED role grants, and the scan leaves it out. */
  lemma ArchivedUnseen(user: UserId, parent: Role, child: Role, code: string, now: Time, grants: seq<Grant>,
                       org: Option<nat>, ctx: Option<Context>)
    requires parent.status == ARCHIVED && child.status != DELETED
    requires var row := RolePermission(2, Some(code), Some(ALLOW));
             Elements(grants) == Resolved(Inherited(user, parent, child, row), user, now)
    ensures Evaluate(grants, code, org, ctx).allowed
    ensures var row := RolePermission(2, Some(code), Some(ALLOW));
            code !in UserCodes(Inherited(user, parent, child, row), user, now)
  {
    OnlyRowAllows(user, parent, child, code, code, now, grants, org, ctx);
  }

  lemma OnlyRowAllows(user: UserId, parent: Role, child: Role, pattern: string, code: string, now: Time,
                      grants: seq<Grant>, org: Option<nat>, ctx: Option<Context>)
    requires child.status != DELETED && PatternMatches(pattern, code)
    requires var row := RolePermission(2, Some(pattern), Some(ALLOW));
             Elements(grants) == Resolved(Inherited(user, parent, child, row), user, now)
    ensures Evaluate(grants, code, org, ctx).allowed
  {
    var row := RolePermission(2, Some(pattern), Some(ALLOW));
    var w := Inherited(user, parent, child, row);
    InheritedRow(user, parent, child, row, now);
    assert BearsAs(w, w.assignments[0], row, ALLOW, code, org, ctx);
    assert ALLOW != DENY;
    EngineAllowsIff(w, user, now, grants, code, org, ctx);
  }

  /** What the built-in role grants is no row at all. */
  lemma LegacyUnseen(user: UserId, name: string, code: string, now: Time, grants: seq<Grant>, org: Option<nat>,
                     ctx: Option<Context>)
    requires var w := World(map[user := (name, {code})], [], map[], [], []); Elements(grants) == Resolved(w, user, now)
    ensures Evaluate(grants, code, org, ctx).allowed
    ensures var w := World(map[user := (name, {code})], [], map[], [], []); code !in UserCodes(w, user, now)
  {
    var w := World(map[user := (name, {code})], [], map[], [], []);
    assert code in w.legacy[user].1 && PatternMatches(code, code);
    EngineAllowsIff(w, user, now, grants, code, org, ctx);
  }

  method ResolveEffectivePermissions(w: World, role: RoleId) returns (codes: set<string>)
    ensures codes == EffectiveCodes(w, role)
  {
    var below := ReachableChildren(w.edges, role);
    codes := {};
    for i := 0 to |w.permissions|
      invariant codes == set p | p in w.permissions[..i] && p.role in w.roles && p.code.Some?
                                 && ReachesOrIs(Arcs(w.edges), role, p.role) :: p.code.value
    {
      var p := w.permissions[i];
      assert w.permissions[..i + 1] == w.permissions[..i] + [p];
      if p.role in w.roles && p.code.Some? && (p.role == role || p.role in below) {
        codes := codes + {p.code.value};
      }
    }
    assert w.permissions[..|w.permissions|] == w.permissions;
  }

  ghost predicate CacheSound(w: World, cache: map<RoleId, set<string>>) {
    forall r :: r in cache ==> cache[r] == EffectiveCodes(w, r)
  }

  /** The memo passed along a whole scan never changes an answer. */
  method UserPermissionCodes(w: World, user: UserId, now: Time, cache: Option<map<RoleId, set<string>>>)
    returns (codes: set<string>, cache': Option<map<RoleId, set<string>>>)
    requires cache.Some? ==> CacheSound(w, cache.value)
    ensures codes == UserCodes(w, user, now)
    ensures cache'.Some? <==> cache.Some?
    ensures cache'.Some? ==> CacheSound(w, cache'.value)
  {
    var roles := set a | a in w.assignments && Counts(w, a, user, now) :: a.role;
    codes, cache' := {}, cache;
    var todo := roles;
    while todo != {}
      invariant todo <= roles
      invariant codes == set r, c | r in roles - todo && c in EffectiveCodes(w, r) :: c
      invariant cache'.Some? <==> cache.Some?
      invariant cache'.Some? ==> CacheSound(w, cache'.value)
    {
      var role :| role in todo;
      if cache'.Some? && role in cache'.value {
        codes := codes + cache'.value[role];
      } else {
        var resolved := ResolveEffectivePermissions(w, role);
        if cache'.Some? {
          cache' := Some(cache'.value[role := resolved]);
        }
        codes := codes + resolved;
      }
      todo := todo - {role};
    }
  }

  // ----- Findings -----

  type Key = (UserId, RuleId)

  /** Everybody's permission codes. */
  type Holdings = UserId -> set<string>

  ghost function Held(w: World, now: Time): Holdings {
    (user: UserId) => UserCodes(w, user, now)
  }

  predicate Violates(codes: set<string>, rule: Rule) {
    rule.first * codes != {} && rule.second * codes != {}
  }

  function KeyOf(f: Finding): Key {
    (f.user, f.rule)
  }

  function OpenKeys(findings: seq<Finding>): set<Key> {
    set f | f in findings && f.open && f.kind != OtherKind :: KeyOf(f)
  }

  function FindingFor(user: UserId, rule: Rule, codes: set<string>): Finding {
    Finding(if rule.toxic then ToxicPermission else SodViolation, user, rule.id, true,
            rule.first * codes, rule.second * codes)
  }

  /** `f` reports a violation by one of these users of one of these rules, with what matched. */
  ghost predicate Reports(held: Holdings, users: set<UserId>, rules: seq<Rule>, f: Finding) {
    f.user in users && exists r :: r in rules && Violates(held(f.user), r) && f == FindingFor(f.user, r, held(f.user))
  }

  /** What a scan adds to the open keys `seen`: each violating pair not among them, once, and nothing else;
      `after` are the open keys then. */
  ghost predicate Scanned(held: Holdings, users: set<UserId>, rules: seq<Rule>, seen: set<Key>,
                          created: seq<Finding>, after: set<Key>) {
    && (forall f :: f in created ==> Reports(held, users, rules, f) && KeyOf(f) !in seen)
    && (forall i, j :: 0 <= i < j < |created| ==> KeyOf(created[i]) != KeyOf(created[j]))
    && (forall k :: k in after <==> k in seen || exists f :: f in created && KeyOf(f) == k)
    && (forall u, r :: u in users && r in rules && Violates(held(u), r) ==> (u, r.id) in after)
  }

  lemma NothingToScan(held: Holdings, users: set<UserId>, rules: seq<Rule>, seen: set<Key>)
    requires users == {} || rules == [] || forall u :: u in users ==> held(u) == {}
    ensures Scanned(held, users, rules, seen, [], seen)
  {
  }

  lemma SkipRule(held: Holdings, user: UserId, rules: seq<Rule>, rule: Rule, seen: set<Key>, created: seq<Finding>,
                 after: set<Key>)
    requires Scanned(held, {user}, rules, seen, created, after)
    requires (user, rule.id) in after || !Violates(held(user), rule)
    ensures Scanned(held, {user}, rules + [rule], seen, created, after)
  {
    forall f | f in created ensures Reports(held, {user}, rules + [rule], f) {
      MoreRulesReport(held, {user}, rules, rule, f);
    }
  }

  lemma FireRule(held: Holdings, user: UserId, rules: seq<Rule>, rule: Rule, seen: set<Key>, created: seq<Finding>,
                 after: set<Key>)
    requires Scanned(held, {user}, rules, seen, created, after)
    requires (user, rule.id) !in after && Violates(held(user), rule)
    ensures Scanned(held, {user}, rules + [rule], seen, created + [FindingFor(user, rule, held(user))],
                    after + {(user, rule.id)})
  {
    var finding := FindingFor(user, rule, held(user));
    assert rule in rules + [rule];
    forall f | f in created ensures Reports(held, {user}, rules + [rule], f) {
      MoreRulesReport(held, {user}, rules, rule, f);
    }
    assert Reports(held, {user}, rules + [rule], finding);
    assert finding in created + [finding];
    forall i | 0 <= i < |created| ensures KeyOf(created[i]) != KeyOf(finding) {
      assert created[i] in created;
    }
    forall k | k in after + {(user, rule.id)} && k !in seen
      ensures exists f :: f in created + [finding] && KeyOf(f) == k
    {
      if k != KeyOf(finding) {
        var f :| f in created && KeyOf(f) == k;
        assert f in created + [finding];
      }
    }
  }

  lemma MoreRulesReport(held: Holdings, users: set<UserId>, rules: seq<Rule>, rule: Rule, f: Finding)
    requires Reports(held, users, rules, f)
    ensures Reports(held, users, rules + [rule], f)
  {
    var r :| r in rules && Violates(held(f.user), r) && f == FindingFor(f.user, r, held(f.user));
    assert r in rules + [rule];
  }

  lemma OneMoreUser(held: Holdings, users: set<UserId>, user: UserId, rules: seq<Rule>, seen: set<Key>,
                    created: seq<Finding>, mid: set<Key>, more: seq<Finding>, after: set<Key>)
    requires Scanned(held, users, rules, seen, created, mid)
    requires Scanned(held, {user}, rules, mid, more, after)
    ensures Scanned(held, users + {user}, rules, seen, created + more, after)
  {
    var all := created + more;
    forall f | f in all ensures Reports(held, users + {user}, rules, f) && KeyOf(f) !in seen {
      if f in created { assert Reports(held, users, rules, f); } else { assert Reports(held, {user}, rules, f); }
    }
    forall i, j | 0 <= i < j < |all| ensures KeyOf(all[i]) != KeyOf(all[j]) {
      if i < |created| <= j {
        assert created[i] in created && more[j - |created|] in more;
      }
    }
    forall k | k in after && k !in seen ensures exists f :: f in all && KeyOf(f) == k {
      if k in mid {
        var f :| f in created && KeyOf(f) == k;
        assert f in all;
      } else {
        var f :| f in more && KeyOf(f) == k;
        assert f in all;
      }
    }
  }

  /** The open keys after storing what a scan created are the ones it reports. */
  lemma ScanOpens(held: Holdings, users: set<UserId>, rules: seq<Rule>, before: seq<Finding>, created: seq<Finding>,
                  after: set<Key>)
    requires Scanned(held, users, rules, OpenKeys(before), created, after)
    ensures OpenKeys(before + created) == after
  {
    forall f | f in created ensures KeyOf(f) in OpenKeys(before + created) {
      assert Reports(held, users, rules, f);
      assert f in before + created;
    }
    forall k | k in OpenKeys(before + created) ensures k in after {
      var f :| f in before + created && f.open && f.kind != OtherKind && KeyOf(f) == k;
    }
  }

  /** The user holds a code on the first side of the rule and a code on the second. */
  ghost predicate HoldsBothSides(codes: set<string>, rule: Rule) {
    exists a, b :: a in rule.first && a in codes && b in rule.second && b in codes
  }

  lemma ViolatesIff(codes: set<string>, rule: Rule)
    ensures Violates(codes, rule) <==> HoldsBothSides(codes, rule)
  {
    if Violates(codes, rule) {
      var a :| a in rule.first * codes;
      var b :| b in rule.second * codes;
    }
    if HoldsBothSides(codes, rule) {
      var a, b :| a in rule.first && a in codes && b in rule.second && b in codes;
      assert a in rule.first * codes && b in rule.second * codes;
    }
  }

  /** Some open finding of either kind names the pair. */
  ghost predicate HasOpen(findings: seq<Finding>, user: UserId, rule: RuleId) {
    exists f :: f in findings && f.open && (f.kind == SodViolation || f.kind == ToxicPermission)
             && f.user == user && f.rule == rule
  }

  lemma OpenKeysIff(findings: seq<Finding>, user: UserId, rule: RuleId)
    ensures (user, rule) in OpenKeys(findings) <==> HasOpen(findings, user, rule)
  {
    if HasOpen(findings, user, rule) {
      var f :| f in findings && f.open && (f.kind == SodViolation || f.kind == ToxicPermission)
               && f.user == user && f.rule == rule;
      assert KeyOf(f) == (user, rule);
    }
  }

  /** After a scan a pair has an open finding exactly when it had one, or the user was scanned and holds codes on both
      sides of a scanned rule with that id. */
  lemma PairOpenIff(held: Holdings, users: set<UserId>, rules: seq<Rule>, before: seq<Finding>,
                    created: seq<Finding>, after: set<Key>, user: UserId, rule: RuleId)
    requires Scanned(held, users, rules, OpenKeys(before), created, after)
    ensures HasOpen(before + created, user, rule) <==>
              || HasOpen(before, user, rule)
              || (user in users && exists r :: r in rules && r.id == rule && HoldsBothSides(held(user), r))
  {
    ScanOpensExactly(held, users, rules, before, created, after, (user, rule));
    OpenKeysIff(before, user, rule);
    OpenKeysIff(before + created, user, rule);
    forall r: Rule ensures Violates(held(user), r) <==> HoldsBothSides(held(user), r) {
      ViolatesIff(held(user), r);
    }
  }

  /** A user who holds nothing from one side of every rule gains no finding. */
  lemma OneSideIsNoFinding(held: Holdings, users: set<UserId>, rules: seq<Rule>, seen: set<Key>, created: seq<Finding>,
                           after: set<Key>, user: UserId)
    requires Scanned(held, users, rules, seen, created, after)
    requires forall r :: r in rules ==>
               (forall c :: c in r.first ==> c !in held(user)) || (forall c :: c in r.second ==> c !in held(user))
    ensures forall f :: f in created ==> f.user != user
  {
    forall f | f in created ensures f.user != user {
      assert Reports(held, users, rules, f);
      var r :| r in rules && Violates(held(f.user), r) && f == FindingFor(f.user, r, held(f.user));
      ViolatesIff(held(f.user), r);
    }
  }

  /** What a new finding says: it is open, names its rule's kind, and lists exactly the codes that matched. */
  lemma FindingsSayWhatMatched(held: Holdings, users: set<UserId>, rules: seq<Rule>, seen: set<Key>,
                               created: seq<Finding>, after: set<Key>, f: Finding)
    requires Scanned(held, users, rules, seen, created, after) && f in created
    ensures f.open && f.user in users
    ensures exists r :: r in rules && r.id == f.rule && f.kind == (if r.toxic then ToxicPermission else SodViolation)
                     && (forall c :: c in f.matchedFirst <==> c in r.first && c in held(f.user))
                     && (forall c :: c in f.matchedSecond <==> c in r.second && c in held(f.user))
  {
    assert Reports(held, users, rules, f);
    var r :| r in rules && Violates(held(f.user), r) && f == FindingFor(f.user, r, held(f.user));
  }

  /** After a scan exactly the violating pairs are open, beyond those open before. */
  lemma ScanOpensExactly(held: Holdings, users: set<UserId>, rules: seq<Rule>, before: seq<Finding>,
                         created: seq<Finding>, after: set<Key>, k: Key)
    requires Scanned(held, users, rules, OpenKeys(before), created, after)
    ensures k in OpenKeys(before + created) <==>
            k in OpenKeys(before) || exists r :: k.0 in users && r in rules && Violates(held(k.0), r) && k.1 == r.id
  {
    ScanOpens(held, users, rules, before, created, after);
    if k in after && k !in OpenKeys(before) {
      var f :| f in created && KeyOf(f) == k;
      assert Reports(held, users, rules, f);
    }
  }

  /** Codes only lapse: over unchanged tables nobody holds more later than earlier. */
  lemma CodesOnlyLapse(w: World, user: UserId, early: Time, late: Time)
    requires early <= late
    ensures UserCodes(w, user, late) <= UserCodes(w, user, early)
  {
  }

  lemma FewerCodesNothingNew(held: Holdings, fewer: Holdings, users: set<UserId>, rules: seq<Rule>,
                             before: seq<Finding>,
                             created: seq<Finding>, after: set<Key>, again: seq<Finding>, later: set<Key>)
    requires forall u :: u in users ==> fewer(u) <= held(u)
    requires Scanned(held, users, rules, OpenKeys(before), created, after)
    requires Scanned(fewer, users, rules, OpenKeys(before + created), again, later)
    ensures again == [] && later == after
  {
    ScanOpens(held, users, rules, before, created, after);
    forall u, r | u in users && r in rules && Violates(fewer(u), r) ensures Violates(held(u), r) {
      assert r.first * fewer(u) <= r.first * held(u) && r.second * fewer(u) <= r.second * held(u);
    }
    assert again != [] ==> Reports(fewer, users, rules, again[0]);
  }

  /** A second scan over unchanged tables, right after the first or at any later time, creates nothing. */
  lemma SecondScanCreatesNothing(w: World, early: Time, late: Time, users: set<UserId>, rules: seq<Rule>,
                                 before: seq<Finding>, created: seq<Finding>, after: set<Key>, again: seq<Finding>,
                                 later: set<Key>)
    requires early <= late
    requires Scanned(Held(w, early), users, rules, OpenKeys(before), created, after)
    requires Scanned(Held(w, late), users, rules, OpenKeys(before + created), again, later)
    ensures again == [] && later == after
  {
    forall u | u in users ensures Held(w, late)(u) <= Held(w, early)(u) {
      CodesOnlyLapse(w, u, early, late);
    }
    FewerCodesNothingNew(Held(w, early), Held(w, late), users, rules, before, created, after, again, later);
  }

  class SoDAnalysis {
    const world: World
    const rules: seq<Rule>
    const users: seq<User>
    var findings: seq<Finding>

    constructor (world: World, rules: seq<Rule>, users: seq<User>)
      ensures this.world == world && this.rules == rules && this.users == users && findings == []
    {
      this.world, this.rules, this.users, findings := world, rules, users, [];
    }

    /** One user against the given rules; `seen` grows with every finding. */
    method EvaluateUser(user: UserId, active: seq<Rule>, seen: set<Key>, now: Time,
                        cache: Option<map<RoleId, set<string>>>)
      returns (created: seq<Finding>, seen': set<Key>, cache': Option<map<RoleId, set<string>>>)
      requires cache.Some? ==> CacheSound(world, cache.value)
      modifies this`findings
      ensures Scanned(Held(world, now), {user}, active, seen, created, seen')
      ensures findings == old(findings) + created
      ensures cache'.Some? <==> cache.Some?
      ensures cache'.Some? ==> CacheSound(world, cache'.value)
    {
      var codes;
      codes, cache' := UserPermissionCodes(world, user, now, cache);
      ghost var held := Held(world, now);
      assert held(user) == codes;
      created, seen' := [], seen;
      if codes == {} {
        NothingToScan(held, {user}, active, seen);
        return;
      }
      NothingToScan(held, {user}, [], seen);
      for i := 0 to |active|
        invariant Scanned(held, {user}, active[..i], seen, created, seen')
        invariant findings == old(findings) + created
      {
        var rule := active[i];
        assert active[..i + 1] == active[..i] + [rule];
        if (user, rule.id) in seen' || !Violates(codes, rule) {
          SkipRule(held, user, active[..i], rule, seen, created, seen');
        } else {
          FireRule(held, user, active[..i], rule, seen, created, seen');
          findings := findings + [FindingFor(user, rule, codes)];
          seen' := seen' + {(user, rule.id)};
          created := created + [FindingFor(user, rule, codes)];
        }
      }
      assert active[..|active|] == active;
    }

    /** Every active user against every active rule, sharing one role memo. */
    method Analyze(now: Time) returns (created: seq<Finding>)
      modifies this`findings
      ensures findings == old(findings) + created
      ensures Scanned(Held(world, now), ActiveIds(users), Active(rules), OpenKeys(old(findings)), created,
                      OpenKeys(findings))
      ensures forall user, rule :: HasOpen(findings, user, rule) <==>
                HasOpen(old(findings), user, rule)
                || (IsActive(users, user) && BreaksOne(world, rules, now, user, rule))
    {
      var active := Active(rules);
      ghost var held := Held(world, now);
      ghost var before := findings;
      created := [];
      if active == [] {
        NothingToScan(held, ActiveIds(users), active, OpenKeys(before));
        ScannedPairs(world, users, rules, now, before, created, OpenKeys(before));
        return;
      }
      var seen := OpenKeys(findings);
      NothingToScan(held, {}, active, seen);
      var cache: Option<map<RoleId, set<string>>> := Some(map[]);
      for i := 0 to |users|
        invariant Scanned(held, ActiveIds(users[..i]), active, OpenKeys(before), created, seen)
        invariant findings == before + created
        invariant cache.Some? && CacheSound(world, cache.value)
      {
        ActiveIdsAppend(users, i);
        if users[i].active {
          var more, seen';
          more, seen', cache := EvaluateUser(users[i].id, active, seen, now, cache);
          OneMoreUser(held, ActiveIds(users[..i]), users[i].id, active, OpenKeys(before), created, seen, more, seen');
          created, seen := created + more, seen';
        }
      }
      assert users[..|users|] == users;
      ScanOpens(held, ActiveIds(users), active, before, created, seen);
      ScannedPairs(world, users, rules, now, before, created, seen);
    }
  }

  /** The scan's outcome pair by pair, in terms of its inputs. */
  lemma ScannedPairs(w: World, users: seq<User>, rules: seq<Rule>, now: Time, before: seq<Finding>,
                     created: seq<Finding>, after: set<Key>)
    requires Scanned(Held(w, now), ActiveIds(users), Active(rules), OpenKeys(before), created, after)
    ensures forall user, rule :: HasOpen(before + created, user, rule) <==>
              HasOpen(before, user, rule) || (IsActive(users, user) && BreaksOne(w, rules, now, user, rule))
  {
    forall user, rule
      ensures HasOpen(before + created, user, rule) <==>
              HasOpen(before, user, rule) || (IsActive(users, user) && BreaksOne(w, rules, now, user, rule))
    {
      PairOpenIff(Held(w, now), ActiveIds(users), Active(rules), before, created, after, user, rule);
    }
  }

  ghost predicate IsActive(users: seq<User>, user: UserId) {
    exists u :: u in users && u.id == user && u.active
  }

  /** Some active rule with this id has a code on each side that the user holds. */
  ghost predicate BreaksOne(w: World, rules: seq<Rule>, now: Time, user: UserId, rule: RuleId) {
    exists r :: r in rules && r.active && r.id == rule && HoldsBothSides(UserCodes(w, user, now), r)
  }

  function ActiveIds(users: seq<User>): set<UserId> {
    set u | u in users && u.active :: u.id
  }

  lemma ActiveIdsAppend(users: seq<User>, i: nat)
    requires i < |users|
    ensures ActiveIds(users[..i + 1]) == ActiveIds(users[..i]) + if users[i].active then {users[i].id} else {}
  {
    assert users[..i + 1] == users[..i] + [users[i]];
  }

  function Active(rules: seq<Rule>): (active: seq<Rule>)
    ensures forall r :: r in active <==> r in rules && r.active
  {
    if rules == [] then []
    else (if rules[0].active then [rules[0]] else []) + Active(rules[1..])
  }
}
