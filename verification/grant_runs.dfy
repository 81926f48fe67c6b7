/** Interleavings of issuing, revoking and mode changes (backend/app/bridge/identity.py:141-205, 251-275,
    service.py:65-125). Each reads in one statement and commits in a later one. Nothing is locked: an agent's row
    carries a version that a commit must find unchanged, a grant's row does not. */
module GrantRuns {
  import opened Wrappers
  import opened Modes
  import opened Grants

  type Caller = nat

  datatype Call =
    | Issuing(op: Op)
    | Changing(agent: AgentId, target: StorableMode, now: Time, version: nat, selected: set<KeyId>)
    | Revoking(key: KeyId, now: Time)

  datatype World = World(registry: Registry, versions: map<AgentId, nat>, calls: map<Caller, Call>)

  datatype Action =
    | StartIssue(caller: Caller, op: Op)
    | FinishIssue(caller: Caller)
    | StartChange(caller: Caller, agent: AgentId, target: Option<Mode>, now: Time)
    | FinishChange(caller: Caller)
    | StartRevoke(caller: Caller, key: KeyId, now: Time)
    | FinishRevoke(caller: Caller)

  predicate Enabled(w: World, a: Action) {
    match a
    case StartIssue(c, op) => c !in w.calls && op.Issue? && op.agent in w.registry.agents
    case FinishIssue(c) => c in w.calls && w.calls[c].Issuing? && w.calls[c].op.Issue?
    case StartChange(c, _, _, _) => c !in w.calls
    case FinishChange(c) => c in w.calls && w.calls[c].Changing? && w.calls[c].agent in w.registry.agents
    case StartRevoke(c, _, _) => c !in w.calls
    case FinishRevoke(c) => c in w.calls && w.calls[c].Revoking?
  }

  predicate Allowed(r: Registry, op: Op)
    requires op.Issue? && op.agent in r.agents
  {
    GovernedScope(op.scope) ==> EnforcesBoundaryCalls(r.agents[op.agent])
  }

  predicate Inserts(r: Registry, op: Op)
    requires op.Issue?
  {
    op.key !in r.grants && !LabelTaken(r.grants, op.agent, op.labelled)
  }

  function Inserted(r: Registry, op: Op): Registry
    requires op.Issue?
  {
    r.(grants := r.grants[op.key := Grant(op.agent, op.labelled, op.secret, op.scope, op.expiresAt, None)])
  }

  function LiveGrants(r: Registry, agent: AgentId): set<KeyId> {
    set k | k in r.grants && LiveFor(r.grants[k], agent)
  }

  function ChangedAgents(r: Registry, agent: AgentId, target: StorableMode): map<AgentId, Agent>
    requires agent in r.agents
  {
    r.agents[agent := r.agents[agent].(stored := Some(target))]
  }

  /** An update by primary key: it stamps whatever was selected, revoked meanwhile or not. */
  function Revoked(grants: map<KeyId, Grant>, selected: set<KeyId>, now: Time): map<KeyId, Grant> {
    map k | k in grants :: if k in selected then grants[k].(revokedAt := Some(now)) else grants[k]
  }

  function VersionOf(w: World, agent: AgentId): nat {
    if agent in w.versions then w.versions[agent] else 0
  }

  /** The agent's row is as the change read it; otherwise the commit raises and rolls back. */
  predicate Commits(w: World, c: Caller)
    requires Enabled(w, FinishChange(c))
  {
    VersionOf(w, w.calls[c].agent) == w.calls[c].version
  }

  function Next(w: World, a: Action): World
    requires Enabled(w, a)
  {
    var r := w.registry;
    match a
    case StartIssue(c, op) => if Allowed(r, op) then w.(calls := w.calls[c := Issuing(op)]) else w
    case FinishIssue(c) =>
      var op := w.calls[c].op;
      w.(registry := if Inserts(r, op) then Inserted(r, op) else r, calls := w.calls - {c})
    case StartChange(c, agent, target, now) =>
      if SetModeRefusal(r, agent, target).Some? || EffectiveMode(r.agents[agent]) == target.value then w
      else
        var selected := if EffectiveMode(r.agents[agent]) == GatewayEnforced then LiveGrants(r, agent) else {};
        w.(calls := w.calls[c := Changing(agent, target.value, now, VersionOf(w, agent), selected)])
    case FinishChange(c) =>
      var call := w.calls[c];
      var done := w.(calls := w.calls - {c});
      if !Commits(w, c) then done
      else
        var agents, grants := ChangedAgents(r, call.agent, call.target), Revoked(r.grants, call.selected, call.now);
        done.(registry := Registry(agents, grants), versions := w.versions[call.agent := call.version + 1])
    case StartRevoke(c, key, now) =>
      if key !in r.grants || r.grants[key].revokedAt.Some? then w
      else w.(calls := w.calls[c := Revoking(key, now)])
    case FinishRevoke(c) =>
      w.(registry := r.(grants := Revoked(r.grants, {w.calls[c].key}, w.calls[c].now)), calls := w.calls - {c})
  }

  // ----- When a step keeps the grants truthful -----

  /** The insert still finds the mode that the check found; the change has selected every governed grant that is live
      when it commits, unless the agent reaches boundary calls afterwards. */
  predicate Timely(w: World, a: Action)
    requires Enabled(w, a)
  {
    var r := w.registry;
    match a
    case FinishIssue(c) =>
      var op := w.calls[c].op;
      Inserts(r, op) && GovernedScope(op.scope) ==> op.agent in r.agents && EnforcesBoundaryCalls(r.agents[op.agent])
    case FinishChange(c) =>
      var call := w.calls[c];
      || !Commits(w, c)
      || EnforcesBoundaryCalls(r.agents[call.agent].(stored := Some(call.target)))
      || forall k :: k in r.grants && LiveFor(r.grants[k], call.agent) && GovernedScope(r.grants[k].scope) ==>
           k in call.selected
    case _ => true
  }

  predicate TruthfulGrant(r: Registry, g: Grant) {
    g.revokedAt.None? && GovernedScope(g.scope) ==> g.agent in r.agents && EnforcesBoundaryCalls(r.agents[g.agent])
  }

  lemma TruthfulIff(r: Registry)
    ensures Truthful(r) <==> forall k :: k in r.grants ==> TruthfulGrant(r, r.grants[k])
  {
  }

  lemma InsertTruthfulIff(w: World, a: Action)
    requires Truthful(w.registry) && Enabled(w, a) && a.FinishIssue?
    ensures Truthful(Next(w, a).registry) <==> Timely(w, a)
  {
    var r, r', op := w.registry, Next(w, a).registry, w.calls[a.caller].op;
    TruthfulIff(r);
    TruthfulIff(r');
    if Inserts(r, op) {
      assert r'.grants[op.key].scope == op.scope;
      assert forall k :: k in r.grants ==> r'.grants[k] == r.grants[k];
    }
  }

  lemma ChangeTruthfulIff(w: World, a: Action)
    requires Truthful(w.registry) && Enabled(w, a) && a.FinishChange?
    ensures Truthful(Next(w, a).registry) <==> Timely(w, a)
  {
    if Commits(w, a.caller) {
      var r, r', call := w.registry, Next(w, a).registry, w.calls[a.caller];
      TruthfulIff(r);
      TruthfulIff(r');
      var agent := r.agents[call.agent].(stored := Some(call.target));
      forall k | k in r.grants
        ensures TruthfulGrant(r', r'.grants[k]) <==>
                (LiveFor(r.grants[k], call.agent) && GovernedScope(r.grants[k].scope) ==>
                   EnforcesBoundaryCalls(agent) || k in call.selected)
      {
        assert TruthfulGrant(r, r.grants[k]);
      }
    }
  }

  lemma RevokeStaysTruthful(w: World, a: Action)
    requires Truthful(w.registry) && Enabled(w, a) && a.FinishRevoke?
    ensures Truthful(Next(w, a).registry)
  {
    var r, r' := w.registry, Next(w, a).registry;
    TruthfulIff(r);
    TruthfulIff(r');
    forall k | k in r'.grants ensures TruthfulGrant(r', r'.grants[k]) {
      assert TruthfulGrant(r, r.grants[k]);
    }
  }

  lemma StepTruthfulIff(w: World, a: Action)
    requires Truthful(w.registry) && Enabled(w, a)
    ensures Truthful(Next(w, a).registry) <==> Timely(w, a)
  {
    if a.FinishIssue? { InsertTruthfulIff(w, a); }
    else if a.FinishChange? { ChangeTruthfulIff(w, a); }
    else if a.FinishRevoke? { RevokeStaysTruthful(w, a); }
  }

  // ----- Runs -----

  predicate Runs(w: World, steps: seq<Action>)
    decreases |steps|
  {
    steps == [] || (Enabled(w, steps[0]) && Runs(Next(w, steps[0]), steps[1..]))
  }

  function After(w: World, steps: seq<Action>): World
    requires Runs(w, steps)
    decreases |steps|
  {
    if steps == [] then w else After(Next(w, steps[0]), steps[1..])
  }

  ghost predicate TruthfulThroughout(w: World, steps: seq<Action>)
    requires Runs(w, steps)
    decreases |steps|
  {
    Truthful(w.registry) && (steps == [] || TruthfulThroughout(Next(w, steps[0]), steps[1..]))
  }

  predicate TimelyRuns(w: World, steps: seq<Action>)
    requires Runs(w, steps)
    decreases |steps|
  {
    steps == [] || (Timely(w, steps[0]) && TimelyRuns(Next(w, steps[0]), steps[1..]))
  }

  /** In every interleaving: each live governed grant belongs to an agent whose mode reaches boundary calls, at every
      point of the run, exactly when each insert and each mode change is timely. */
  lemma {:induction false} TruthfulRunIff(w: World, steps: seq<Action>)
    requires Truthful(w.registry) && Runs(w, steps)
    ensures TruthfulThroughout(w, steps) <==> TimelyRuns(w, steps)
    decreases |steps|
  {
    if steps != [] {
      StepTruthfulIff(w, steps[0]);
      if Timely(w, steps[0]) {
        TruthfulRunIff(Next(w, steps[0]), steps[1..]);
      }
    }
  }

  // ----- Revocation -----

  /** A grant that was revoked, now the same but for its stamp, and revoked still. */
  predicate StillRevoked(before: Grant, after: Grant) {
    after.revokedAt.Some? && after == before.(revokedAt := after.revokedAt)
  }

  /** In every interleaving a revoked grant is never live again, nor does it change in anything but its stamp. */
  lemma {:induction false} RevokedForGood(w: World, steps: seq<Action>, k: KeyId)
    requires Runs(w, steps) && k in w.registry.grants && w.registry.grants[k].revokedAt.Some?
    ensures k in After(w, steps).registry.grants
    ensures StillRevoked(w.registry.grants[k], After(w, steps).registry.grants[k])
    decreases |steps|
  {
    if steps != [] {
      RevokedForGood(Next(w, steps[0]), steps[1..], k);
    }
  }

  /** The step stamps the grant, again or for the first time. */
  predicate Stamps(w: World, a: Action, k: KeyId, now: Time)
    requires Enabled(w, a)
  {
    match a
    case FinishChange(c) => Commits(w, c) && k in w.calls[c].selected && w.calls[c].now == now
    case FinishRevoke(c) => k == w.calls[c].key && w.calls[c].now == now
    case _ => false
  }

  /** A step keeps the time at which a grant was revoked unless it stamps the grant with another one: a mode change
      that selected the grant, or a second revocation that read it, while it was live. */
  lemma StampKeptIff(w: World, a: Action, k: KeyId)
    requires Enabled(w, a) && k in w.registry.grants && w.registry.grants[k].revokedAt.Some?
    ensures Next(w, a).registry.grants[k] == w.registry.grants[k] <==>
            forall now :: Stamps(w, a, k, now) ==> Some(now) == w.registry.grants[k].revokedAt
  {
    var g, g' := w.registry.grants[k], Next(w, a).registry.grants[k];
    if g' != g {
      assert Stamps(w, a, k, g'.revokedAt.value);
    }
    forall now | Stamps(w, a, k, now) ensures g'.revokedAt == Some(now) {
    }
  }

  /** For every live grant of an agent in gateway mode: a mode change selects it, it is revoked, and the change that
      commits later writes its own time over the revocation's. */
  lemma StampOverwritten(r: Registry, k: KeyId, early: Time, late: Time) returns (steps: seq<Action>)
    requires k in r.grants && r.grants[k].revokedAt.None? && r.grants[k].agent in r.agents
    requires EffectiveMode(r.agents[r.grants[k].agent]) == GatewayEnforced
    ensures |steps| == 4 && Runs(World(r, map[], map[]), steps) && Runs(World(r, map[], map[]), steps[..3])
    ensures k in After(World(r, map[], map[]), steps[..3]).registry.grants
    ensures After(World(r, map[], map[]), steps[..3]).registry.grants[k] == r.grants[k].(revokedAt := Some(early))
    ensures k in After(World(r, map[], map[]), steps).registry.grants
    ensures After(World(r, map[], map[]), steps).registry.grants[k] == r.grants[k].(revokedAt := Some(late))
  {
    var w := World(r, map[], map[]);
    var a, b, c, d := StartChange(0, r.grants[k].agent, Some(Observed), late), StartRevoke(1, k, early),
                      FinishRevoke(1), FinishChange(0);
    steps := [a, b, c, d];
    assert k in LiveGrants(r, r.grants[k].agent);
    ThreeActions(w, a, b, c);
    FourActions(w, a, b, c, d);
    assert steps[..3] == [a, b, c];
  }

  // ----- Uninterrupted calls are the service's -----

  /** Uninterrupted, the two statements of an issue are the service's one step ... */
  lemma IssueIsAtomic(w: World, c: Caller, op: Op)
    requires Enabled(w, StartIssue(c, op))
    ensures var mid := Next(w, StartIssue(c, op));
            if Allowed(w.registry, op)
            then && Enabled(mid, FinishIssue(c))
                 && Next(mid, FinishIssue(c)) == w.(registry := Grants.Apply(w.registry, op))
            else mid == w && Grants.Apply(w.registry, op) == w.registry
  {
    var mid := Next(w, StartIssue(c, op));
    if Allowed(w.registry, op) {
      assert mid.calls - {c} == w.calls;
    }
  }

  /** ... and so are those of a mode change ... */
  lemma ChangeIsAtomic(w: World, c: Caller, agent: AgentId, target: Option<Mode>, now: Time)
    requires c !in w.calls
    ensures var mid := Next(w, StartChange(c, agent, target, now));
            var done := Grants.Apply(w.registry, SetMode(agent, target, now));
            if c in mid.calls
            then && Enabled(mid, FinishChange(c))
                 && Next(mid, FinishChange(c)) == World(done, w.versions[agent := VersionOf(w, agent) + 1], w.calls)
            else mid == w && done == w.registry
  {
    var r, mid := w.registry, Next(w, StartChange(c, agent, target, now));
    if c in mid.calls {
      assert mid.calls - {c} == w.calls;
      assert Revoked(r.grants, LiveGrants(r, agent), now) == RevokeAll(r.grants, agent, now);
      assert Revoked(r.grants, {}, now) == r.grants;
    }
  }

  /** ... and of a revocation. */
  lemma RevokeIsAtomic(w: World, c: Caller, key: KeyId, now: Time)
    requires c !in w.calls
    ensures var mid := Next(w, StartRevoke(c, key, now));
            var done := Grants.Apply(w.registry, Revoke(key, now));
            if c in mid.calls then Enabled(mid, FinishRevoke(c)) && Next(mid, FinishRevoke(c)) == w.(registry := done)
            else mid == w && done == w.registry
  {
    var r, mid := w.registry, Next(w, StartRevoke(c, key, now));
    if c in mid.calls {
      assert mid.calls - {c} == w.calls;
      assert Revoked(r.grants, {key}, now) == r.grants[key := r.grants[key].(revokedAt := Some(now))];
    }
  }

  /** For every agent in gateway mode and every new governed grant: checked before the mode change and inserted after
      it, the grant is live for an agent that enforces nothing. */
  lemma GrantOutlivesItsMode(r: Registry, op: Op, now: Time) returns (steps: seq<Action>)
    requires op.Issue? && op.agent in r.agents && GovernedScope(op.scope) && Inserts(r, op) && Truthful(r)
    requires EffectiveMode(r.agents[op.agent]) == GatewayEnforced
    ensures Runs(World(r, map[], map[]), steps) && !TruthfulThroughout(World(r, map[], map[]), steps)
  {
    var w := World(r, map[], map[]);
    var a, b := StartIssue(0, op), StartChange(1, op.agent, Some(Observed), now);
    steps := [a, b, FinishChange(1), FinishIssue(0)];
    var w3 := Next(Next(Next(w, a), b), FinishChange(1));
    FourActions(w, a, b, FinishChange(1), FinishIssue(0));
    assert Inserts(w3.registry, op) && !Timely(w3, FinishIssue(0));
    TruthfulRunIff(w, steps);
  }

  lemma ThreeActions(w: World, a: Action, b: Action, c: Action)
    requires Enabled(w, a) && Enabled(Next(w, a), b) && Enabled(Next(Next(w, a), b), c)
    ensures Runs(w, [a, b, c]) && After(w, [a, b, c]) == Next(Next(Next(w, a), b), c)
    ensures TimelyRuns(w, [a, b, c]) ==> Timely(Next(Next(w, a), b), c)
  {
    var w1 := Next(w, a);
    Unfold(Next(w1, b), c, []);
    Unfold(w1, b, [c]);
    Unfold(w, a, [b, c]);
    assert [c] == [c] + [] && [b, c] == [b] + [c] && [a, b, c] == [a] + [b, c];
  }

  lemma FourActions(w: World, a: Action, b: Action, c: Action, d: Action)
    requires Enabled(w, a) && Enabled(Next(w, a), b) && Enabled(Next(Next(w, a), b), c)
    requires Enabled(Next(Next(Next(w, a), b), c), d)
    ensures Runs(w, [a, b, c, d]) && After(w, [a, b, c, d]) == Next(Next(Next(Next(w, a), b), c), d)
    ensures TimelyRuns(w, [a, b, c, d]) ==> Timely(Next(Next(Next(w, a), b), c), d)
  {
    ThreeActions(Next(w, a), b, c, d);
    Unfold(w, a, [b, c, d]);
    assert [a, b, c, d] == [a] + [b, c, d];
  }

  lemma Unfold(w: World, a: Action, rest: seq<Action>)
    requires Enabled(w, a) && Runs(Next(w, a), rest)
    ensures Runs(w, [a] + rest) && After(w, [a] + rest) == After(Next(w, a), rest)
    ensures TimelyRuns(w, [a] + rest) <==> Timely(w, a) && TimelyRuns(Next(w, a), rest)
  {
    assert ([a] + rest)[1..] == rest;
  }
}
