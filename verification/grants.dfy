/** What ACT can enforce over an agent (backend/app/bridge/modes.py). */
module Modes {
  import opened Wrappers

  datatype ControlState = Discovered | Claimed | Registered | Governed
  datatype Mode = Observed | Advisory | GatewayEnforced | NativeEnforced

  predicate Settable(m: Mode) {
    m != NativeEnforced
  }

  /** What the column's CHECK constraint lets be stored. */
  type StorableMode = m: Mode | Settable(m) witness Observed

  datatype Agent = Agent(control: ControlState, stored: Option<StorableMode>)

  function EffectiveMode(a: Agent): Mode {
    if a.control == Governed then NativeEnforced else a.stored.GetOr(Observed)
  }

  predicate ReachesBoundary(m: Mode) {
    m == GatewayEnforced || m == NativeEnforced
  }

  predicate EnforcesBoundaryCalls(a: Agent) {
    ReachesBoundary(EffectiveMode(a))
  }
}

/** Issuing, revoking and mode changes (backend/app/bridge/identity.py:118-275, service.py:65-125). */
module Grants {
  import opened Wrappers
  import opened Modes

  type AgentId = nat
  type KeyId = nat

  datatype ScopeEntry = ScopeEntry(capability: string, target: Option<string>)
  datatype RawEntry = RawEntry(capability: Option<string>, target: Option<string>)

  /** A grant is identified by its unique public key id. */
  datatype Grant = Grant(
    agent: AgentId, labelled: string, secret: nat, scope: seq<ScopeEntry>,
    expiresAt: Option<Time>, revokedAt: Option<Time>)

  datatype Refusal = ScopeInvalid | CapabilityUnknown | ModeDoesNotEnforce | Conflict | GrantNotFound
                   | AgentNotFound | ModeNotSettable | ModeUnknown | TransitionInvalid

  const HTTP_TOOL := "http_tool.invoke"
  const TELEMETRY := "telemetry.ingest"

  predicate Governs(capability: string) {
    capability == HTTP_TOOL
  }

  predicate RequiresTarget(capability: string) {
    capability == HTTP_TOOL
  }

  function EntryRefusal(e: RawEntry): Option<Refusal> {
    if e.capability.None? || e.capability.value !in {HTTP_TOOL, TELEMETRY} then Some(CapabilityUnknown)
    else if RequiresTarget(e.capability.value) && e.target.None? then Some(ScopeInvalid)
    else None
  }

  ghost predicate FirstRefusal(scope: seq<RawEntry>, i: nat, why: Refusal) {
    && i < |scope| && EntryRefusal(scope[i]) == Some(why)
    && forall j :: 0 <= j < i ==> EntryRefusal(scope[j]).None?
  }

  /** The stored form of a requested scope: same capabilities and targets, nothing refused. */
  ghost predicate Normalizes(scope: seq<RawEntry>, normalized: seq<ScopeEntry>) {
    && |normalized| == |scope|
    && forall i :: 0 <= i < |scope| ==>
         && EntryRefusal(scope[i]).None?
         && scope[i] == RawEntry(Some(normalized[i].capability), normalized[i].target)
  }

  predicate Covers(scope: seq<ScopeEntry>, capability: string, target: Option<string>) {
    exists i :: 0 <= i < |scope| && scope[i].capability == capability
             && (scope[i].target.None? || scope[i].target == target)
  }

  /** Normalizes a requested scope entry by entry, stopping at the first unacceptable one. */
  method ValidateScope(scope: seq<RawEntry>) returns (r: Result<seq<ScopeEntry>, Refusal>)
    ensures r.Ok? <==> scope != [] && forall i :: 0 <= i < |scope| ==> EntryRefusal(scope[i]).None?
    ensures r.Ok? ==> Normalizes(scope, r.value)
    ensures r.Err? ==> if scope == [] then r.error == ScopeInvalid else exists i :: FirstRefusal(scope, i, r.error)
  {
    if scope == [] {
      return Err(ScopeInvalid);
    }
    var normalized: seq<ScopeEntry> := [];
    for i := 0 to |scope|
      invariant Normalizes(scope[..i], normalized)
    {
      match EntryRefusal(scope[i])
      case Some(why) =>
        assert FirstRefusal(scope, i, why);
        return Err(why);
      case None =>
        normalized := normalized + [ScopeEntry(scope[i].capability.value, scope[i].target)];
    }
    assert scope[..|scope|] == scope;
    return Ok(normalized);
  }

  /** A validated scope reaches what was asked for and nothing else; a governed call always names its target. */
  lemma ScopeReach(scope: seq<RawEntry>, normalized: seq<ScopeEntry>, capability: string, target: Option<string>)
    requires Normalizes(scope, normalized)
    ensures Covers(normalized, capability, target) <==>
            exists i :: 0 <= i < |scope| && scope[i].capability == Some(capability)
                     && (scope[i].target.None? || scope[i].target == target)
    ensures Governs(capability) && target.None? ==> !Covers(normalized, capability, target)
  {
    forall i | 0 <= i < |scope|
      ensures scope[i] == RawEntry(Some(normalized[i].capability), normalized[i].target)
    {
    }
    if Covers(normalized, capability, target) {
      var i :| 0 <= i < |normalized| && normalized[i].capability == capability
             && (normalized[i].target.None? || normalized[i].target == target);
      assert scope[i].capability == Some(capability) && EntryRefusal(scope[i]).None?;
    }
  }

  // ----- The two tables -----

  datatype Registry = Registry(agents: map<AgentId, Agent>, grants: map<KeyId, Grant>)

  predicate GovernedScope(scope: seq<ScopeEntry>) {
    exists i :: 0 <= i < |scope| && Governs(scope[i].capability)
  }

  predicate LabelTaken(grants: map<KeyId, Grant>, agent: AgentId, labelled: string) {
    exists k :: k in grants && grants[k].agent == agent && grants[k].labelled == labelled
  }

  predicate LiveFor(g: Grant, agent: AgentId) {
    g.agent == agent && g.revokedAt.None?
  }

  function RevokeAll(grants: map<KeyId, Grant>, agent: AgentId, now: Time): map<KeyId, Grant> {
    map k | k in grants :: if LiveFor(grants[k], agent) then grants[k].(revokedAt := Some(now)) else grants[k]
  }

  datatype Op =
    | Issue(agent: AgentId, key: KeyId, labelled: string, secret: nat, scope: seq<ScopeEntry>, expiresAt: Option<Time>)
    | Revoke(key: KeyId, now: Time)
    | SetMode(agent: AgentId, target: Option<Mode>, now: Time)

  function IssueRefusal(r: Registry, agent: AgentId, key: KeyId, labelled: string,
                        scope: seq<ScopeEntry>): Option<Refusal>
    requires agent in r.agents
  {
    if GovernedScope(scope) && !EnforcesBoundaryCalls(r.agents[agent]) then Some(ModeDoesNotEnforce)
    else if key in r.grants || LabelTaken(r.grants, agent, labelled) then Some(Conflict)
    else None
  }

  function SetModeRefusal(r: Registry, agent: AgentId, target: Option<Mode>): Option<Refusal> {
    if agent !in r.agents then Some(AgentNotFound)
    else if target.None? then Some(ModeUnknown)
    else if !Settable(target.value) then Some(ModeNotSettable)
    else if r.agents[agent].control == Governed then Some(TransitionInvalid)
    else None
  }

  function Apply(r: Registry, op: Op): Registry {
    match op
    case Issue(agent, key, labelled, secret, scope, expiresAt) =>
      if agent !in r.agents || IssueRefusal(r, agent, key, labelled, scope).Some? then r
      else r.(grants := r.grants[key := Grant(agent, labelled, secret, scope, expiresAt, None)])
    case Revoke(key, now) =>
      if key !in r.grants || r.grants[key].revokedAt.Some? then r
      else r.(grants := r.grants[key := r.grants[key].(revokedAt := Some(now))])
    case SetMode(agent, target, now) =>
      if SetModeRefusal(r, agent, target).Some? || EffectiveMode(r.agents[agent]) == target.value then r
      else
        var agents := r.agents[agent := r.agents[agent].(stored := Some(target.value))];
        if EffectiveMode(r.agents[agent]) == GatewayEnforced then Registry(agents, RevokeAll(r.grants, agent, now))
        else r.(agents := agents)
  }

  function ApplyAll(r: Registry, ops: seq<Op>): Registry {
    if ops == [] then r else Apply(ApplyAll(r, ops[..|ops| - 1]), ops[|ops| - 1])
  }

  // ----- What the tables mean -----

  /** The one governed capability is `http_tool.invoke`. */
  lemma GovernedIff(scope: seq<ScopeEntry>)
    ensures GovernedScope(scope) <==> exists i :: 0 <= i < |scope| && scope[i].capability == "http_tool.invoke"
  {
  }

  /** Boundary calls are enforced for the agents that ACT runs, whatever is stored, and for those in gateway mode. */
  lemma EnforcesIff(a: Agent)
    ensures EnforcesBoundaryCalls(a) <==> a.control == Governed || a.stored == Some(GatewayEnforced)
    ensures EffectiveMode(a) == NativeEnforced <==> a.control == Governed
    ensures a.control != Governed && a.stored.None? ==> EffectiveMode(a) == Observed
    ensures a.control != Governed && a.stored.Some? ==> EffectiveMode(a) == a.stored.value
  {
  }

  /** Which scope entries are accepted, and which refusal the others get. */
  lemma EntryAcceptedIff(e: RawEntry)
    ensures EntryRefusal(e).None? <==>
              e.capability == Some("telemetry.ingest") || (e.capability == Some("http_tool.invoke") && e.target.Some?)
    ensures EntryRefusal(e) == Some(ScopeInvalid) <==> e.capability == Some("http_tool.invoke") && e.target.None?
    ensures EntryRefusal(e).Some? ==> EntryRefusal(e).value in {ScopeInvalid, CapabilityUnknown}
  {
  }

  /** What issuing does: one live grant with what was asked for, or nothing. */
  lemma IssueMeans(r: Registry, op: Op)
    requires op.Issue? && op.agent in r.agents
    ensures var a := r.agents[op.agent];
            var governed := exists i :: 0 <= i < |op.scope| && op.scope[i].capability == "http_tool.invoke";
            var refused := || (governed && a.control != Governed && a.stored != Some(GatewayEnforced))
                           || op.key in r.grants
                           || exists k :: k in r.grants && r.grants[k].agent == op.agent
                                       && r.grants[k].labelled == op.labelled;
            && (IssueRefusal(r, op.agent, op.key, op.labelled, op.scope) == Some(ModeDoesNotEnforce) <==>
                  governed && a.control != Governed && a.stored != Some(GatewayEnforced))
            && IssueRefusal(r, op.agent, op.key, op.labelled, op.scope)
               in {None, Some(ModeDoesNotEnforce), Some(Conflict)}
            && Apply(r, op) == if refused then r else
              r.(grants := r.grants[op.key := Grant(op.agent, op.labelled, op.secret, op.scope, op.expiresAt, None)])
  {
    GovernedIff(op.scope);
    EnforcesIff(r.agents[op.agent]);
  }

  /** What a mode change does to each grant: exactly the agent's live grants are revoked, exactly when an agent that
      ACT does not run leaves the gateway mode. */
  lemma ModeChangeMeans(r: Registry, agent: AgentId, target: Option<Mode>, now: Time, k: KeyId)
    requires k in r.grants
    ensures var after := Apply(r, SetMode(agent, target, now));
            var leaves := agent in r.agents && r.agents[agent].control != Governed
                          && r.agents[agent].stored == Some(GatewayEnforced)
                          && (target == Some(Observed) || target == Some(Advisory));
            && k in after.grants
            && after.grants[k] == if leaves && r.grants[k].agent == agent && r.grants[k].revokedAt.None?
                                  then r.grants[k].(revokedAt := Some(now)) else r.grants[k]
  {
  }

  /** What it does to the agents: one that ACT does not run gets the mode asked for, if it can be set at all. */
  lemma ModeIsStored(r: Registry, agent: AgentId, target: Option<Mode>, now: Time, other: AgentId)
    requires other in r.agents
    ensures var after := Apply(r, SetMode(agent, target, now)).agents;
            && other in after && after[other].control == r.agents[other].control
            && (if other == agent && r.agents[agent].control != Governed
                   && target.Some? && target.value != NativeEnforced
                then EffectiveMode(after[other]) == target.value else after[other] == r.agents[other])
  {
  }

  /** Which mode changes are refused, and why: first the agent, then the mode, then what ACT runs itself. */
  lemma ModeRefusals(r: Registry, agent: AgentId, target: Option<Mode>)
    ensures var why := SetModeRefusal(r, agent, target);
            && (why == Some(AgentNotFound) <==> agent !in r.agents)
            && (why == Some(ModeUnknown) <==> agent in r.agents && target.None?)
            && (why == Some(ModeNotSettable) <==> agent in r.agents && target == Some(NativeEnforced))
            && (why == Some(TransitionInvalid) <==>
                  agent in r.agents && target.Some? && target != Some(NativeEnforced)
                  && r.agents[agent].control == Governed)
            && why in {None, Some(AgentNotFound), Some(ModeUnknown), Some(ModeNotSettable), Some(TransitionInvalid)}
  {
  }

  // ----- Invariants over every run -----

  ghost predicate Truthful(r: Registry) {
    forall k :: k in r.grants && r.grants[k].revokedAt.None? && GovernedScope(r.grants[k].scope) ==>
      r.grants[k].agent in r.agents && EnforcesBoundaryCalls(r.agents[r.grants[k].agent])
  }

  /** Every live grant on a governed capability belongs to an agent whose mode reaches boundary calls. */
  lemma {:induction false} RunsStayTruthful(r: Registry, ops: seq<Op>)
    requires Truthful(r)
    ensures Truthful(ApplyAll(r, ops))
  {
    if ops != [] {
      RunsStayTruthful(r, ops[..|ops| - 1]);
      StepStaysTruthful(ApplyAll(r, ops[..|ops| - 1]), ops[|ops| - 1]);
    }
  }

  lemma StepStaysTruthful(r: Registry, op: Op)
    requires Truthful(r)
    ensures Truthful(Apply(r, op))
  {
    var r' := Apply(r, op);
    forall k | k in r'.grants && r'.grants[k].revokedAt.None? && GovernedScope(r'.grants[k].scope)
      ensures r'.grants[k].agent in r'.agents && EnforcesBoundaryCalls(r'.agents[r'.grants[k].agent])
    {
      if k in r.grants {
        assert r.grants[k].revokedAt.None? && r'.grants[k] == r.grants[k];
        assert EnforcesBoundaryCalls(r.agents[r.grants[k].agent]);
      }
    }
  }

  /** Revocation is permanent and keeps its first timestamp; no grant disappears or changes hands. */
  lemma {:induction false} RevocationIsPermanent(r: Registry, ops: seq<Op>, k: KeyId)
    requires k in r.grants
    ensures var after := ApplyAll(r, ops).grants;
            && k in after
            && (r.grants[k].revokedAt.Some? ==> after[k] == r.grants[k])
            && after[k] == r.grants[k].(revokedAt := after[k].revokedAt)
  {
    if ops != [] {
      RevocationIsPermanent(r, ops[..|ops| - 1], k);
    }
  }

  /** Why control_state must stay put: moving it keeps the invariant exactly when the agent holds no live
      governed grant or still reaches the boundary afterwards. */
  lemma ControlChangeStaysTruthfulIff(r: Registry, agent: AgentId, control: ControlState)
    requires Truthful(r) && agent in r.agents
    ensures var moved := r.agents[agent].(control := control);
            Truthful(r.(agents := r.agents[agent := moved])) <==>
              (EnforcesBoundaryCalls(moved)
               || forall k :: k in r.grants && LiveFor(r.grants[k], agent) ==> !GovernedScope(r.grants[k].scope))
  {
    var moved := r.agents[agent].(control := control);
    var r' := r.(agents := r.agents[agent := moved]);
    if Truthful(r') && !EnforcesBoundaryCalls(moved) {
      forall k | k in r.grants && LiveFor(r.grants[k], agent) ensures !GovernedScope(r.grants[k].scope) {
        assert k in r'.grants;
      }
    }
    if EnforcesBoundaryCalls(moved)
       || forall k :: k in r.grants && LiveFor(r.grants[k], agent) ==> !GovernedScope(r.grants[k].scope) {
      forall k | k in r'.grants && r'.grants[k].revokedAt.None? && GovernedScope(r'.grants[k].scope)
        ensures r'.grants[k].agent in r'.agents && EnforcesBoundaryCalls(r'.agents[r'.grants[k].agent])
      {
        assert k in r.grants;
      }
    }
  }

  // ----- The services -----

  class GrantService {
    var agents: map<AgentId, Agent>
    var grants: map<KeyId, Grant>

    constructor (agents: map<AgentId, Agent>)
      ensures this.agents == agents && grants == map[]
    {
      this.agents, grants := agents, map[];
    }

    ghost function State(): Registry
      reads this
    {
      Registry(agents, grants)
    }

    method IssueGrant(agent: AgentId, key: KeyId, labelled: string, secret: nat, scope: seq<RawEntry>,
                      expiresAt: Option<Time>)
      returns (r: Result<KeyId, Refusal>)
      requires agent in agents
      modifies this`grants
      ensures r.Err? ==> grants == old(grants)
      ensures r.Ok? ==> r.value == key && key !in old(grants) && key in grants && scope != []
      ensures scope == [] || (exists i :: 0 <= i < |scope| && EntryRefusal(scope[i]).Some?) ==>
                r.Err? && if scope == [] then r.error == ScopeInvalid else exists i :: FirstRefusal(scope, i, r.error)
      ensures forall normalized :: scope != [] && Normalizes(scope, normalized) ==>
                && State() == Apply(old(State()), Issue(agent, key, labelled, secret, normalized, expiresAt))
                && IssueRefusal(old(State()), agent, key, labelled, normalized) == if r.Ok? then None else Some(r.error)
    {
      var validated := ValidateScope(scope);
      if validated.Err? {
        return Err(validated.error);
      }
      assert forall normalized :: Normalizes(scope, normalized) ==> normalized == validated.value;
      var governed := exists i :: 0 <= i < |validated.value| && Governs(validated.value[i].capability);
      if governed && !EnforcesBoundaryCalls(agents[agent]) {
        return Err(ModeDoesNotEnforce);
      }
      if key in grants || LabelTaken(grants, agent, labelled) {
        return Err(Conflict);
      }
      grants := grants[key := Grant(agent, labelled, secret, validated.value, expiresAt, None)];
      return Ok(key);
    }

    method RevokeGrant(key: KeyId, now: Time) returns (r: Result<Grant, Refusal>)
      modifies this`grants
      ensures State() == Apply(old(State()), Revoke(key, now))
      ensures grants == if key in old(grants) && old(grants)[key].revokedAt.None?
                        then old(grants)[key := old(grants)[key].(revokedAt := Some(now))] else old(grants)
      ensures r.Err? <==> key !in old(grants)
      ensures r.Ok? ==> r.value == grants[key] && r.value.revokedAt.Some?
    {
      if key !in grants {
        return Err(GrantNotFound);
      }
      if grants[key].revokedAt.Some? {
        return Ok(grants[key]);
      }
      grants := grants[key := grants[key].(revokedAt := Some(now))];
      return Ok(grants[key]);
    }

    /** Leaving GATEWAY_ENFORCED revokes every live grant of the agent in the same transaction. */
    method SetAgentMode(agent: AgentId, target: Option<Mode>, now: Time) returns (r: Result<Mode, Refusal>)
      modifies this
      ensures State() == Apply(old(State()), SetMode(agent, target, now))
      ensures r.Err? ==> SetModeRefusal(old(State()), agent, target) == Some(r.error)
      ensures r.Ok? ==> agent in agents && target == Some(r.value) && EffectiveMode(agents[agent]) == r.value
    {
      if agent !in agents {
        return Err(AgentNotFound);
      }
      var previous := EffectiveMode(agents[agent]);
      if target.None? {
        return Err(ModeUnknown);
      }
      if !Settable(target.value) {
        return Err(ModeNotSettable);
      }
      if agents[agent].control == Governed {
        return Err(TransitionInvalid);
      }
      if previous == target.value {
        return Ok(previous);
      }
      agents := agents[agent := agents[agent].(stored := Some(target.value))];
      if previous == GatewayEnforced && target.value != GatewayEnforced {
        var before := grants;
        var live := set k | k in before && LiveFor(before[k], agent);
        var todo := live;
        while todo != {}
          invariant todo <= live
          invariant grants.Keys == before.Keys
          invariant forall k :: k in before ==>
            grants[k] == if k in live && k !in todo then before[k].(revokedAt := Some(now)) else before[k]
          invariant agents == old(agents)[agent := old(agents)[agent].(stored := Some(target.value))]
        {
          var k :| k in todo;
          grants := grants[k := grants[k].(revokedAt := Some(now))];
          todo := todo - {k};
        }
      }
      return Ok(target.value);
    }
  }
}
