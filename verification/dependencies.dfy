/** The dependency-edge table of one organization (backend/app/graph/dependencies.py:44-128, 350-439). Rows are
    never removed: revoking one only closes it. */
module DependencyEdges {
  import opened Wrappers

  datatype NodeType =
    | AgentNode | ToolNode | McpServerNode | CredentialNode | ConnectorNode | ResourceNode | OtherNode(name: string)

  datatype EdgeType =
    | DependsOnTool | DependsOnMcpServer | DependsOnCredential | DependsOnConnector | DependsOnResource
    | McpExposesTool | ToolUsesCredential | ToolAccessesResource | CredentialAccessesResource
    | OtherEdge(name: string)

  /** The permitted endpoints of each dependency edge type. */
  function Shape(e: EdgeType): Option<(NodeType, NodeType)> {
    match e
    case DependsOnTool => Some((AgentNode, ToolNode))
    case DependsOnMcpServer => Some((AgentNode, McpServerNode))
    case DependsOnCredential => Some((AgentNode, CredentialNode))
    case DependsOnConnector => Some((AgentNode, ConnectorNode))
    case DependsOnResource => Some((AgentNode, ResourceNode))
    case McpExposesTool => Some((McpServerNode, ToolNode))
    case ToolUsesCredential => Some((ToolNode, CredentialNode))
    case ToolAccessesResource => Some((ToolNode, ResourceNode))
    case CredentialAccessesResource => Some((CredentialNode, ResourceNode))
    case OtherEdge(_) => None
  }

  /** The shapes, read by endpoint: agents depend on things, a server exposes tools, tools and credentials are used or
      reach resources; no two types link the same kinds of nodes. */
  lemma ShapesAre(e: EdgeType, s: NodeType, t: NodeType)
    requires Shape(e) == Some((s, t))
    ensures s == AgentNode <==>
              e in {DependsOnTool, DependsOnMcpServer, DependsOnCredential, DependsOnConnector, DependsOnResource}
    ensures s == McpServerNode <==> e == McpExposesTool
    ensures s == ToolNode <==> e == ToolUsesCredential || e == ToolAccessesResource
    ensures s == CredentialNode <==> e == CredentialAccessesResource
    ensures t == ToolNode <==> e == DependsOnTool || e == McpExposesTool
    ensures t == McpServerNode <==> e == DependsOnMcpServer
    ensures t == CredentialNode <==> e == DependsOnCredential || e == ToolUsesCredential
    ensures t == ConnectorNode <==> e == DependsOnConnector
    ensures t == ResourceNode <==> e in {DependsOnResource, ToolAccessesResource, CredentialAccessesResource}
    ensures s in {AgentNode, McpServerNode, ToolNode, CredentialNode} && t != AgentNode && !t.OtherNode?
  {
  }

  lemma ShapelessIff(e: EdgeType)
    ensures Shape(e).None? <==> e.OtherEdge?
  {
  }

  datatype Key = Key(sourceType: NodeType, source: nat, edge: EdgeType, targetType: NodeType, target: nat)

  /** Edges of other kinds share the table and are not this component's concern. */
  predicate Shaped(k: Key) {
    Shape(k.edge).None? || Shape(k.edge) == Some((k.sourceType, k.targetType))
  }

  datatype Mode = Observed | Declared

  datatype Field =
    | Source | CallCount | SampleCall | LastSeen | AssignmentStatus | Hint | ViaTool | Provider | Model | Creator
    | Note
  datatype Value = Text(text: string) | Number(number: int) | Nothing

  datatype Evidence = Evidence(mode: Mode, alsoDeclared: bool, details: map<Field, Value>)

  datatype Provenance = Derived | Explicit

  datatype Edge = Edge(key: Key, provenance: Provenance, evidence: Evidence, revoked: bool)

  datatype Request = Request(key: Key, provenance: Provenance, evidence: Evidence)

  predicate Live(e: Edge, k: Key) {
    e.key == k && !e.revoked
  }

  ghost predicate IsLive(edges: seq<Edge>, k: Key) {
    exists i :: 0 <= i < |edges| && Live(edges[i], k)
  }

  function Find(edges: seq<Edge>, k: Key): (at: Option<nat>)
    ensures at.Some? ==> at.value < |edges| && Live(edges[at.value], k)
    ensures at.None? <==> !IsLive(edges, k)
  {
    if edges == [] then None
    else match Find(edges[..|edges| - 1], k)
         case Some(i) => Some(i)
         case None => if Live(edges[|edges| - 1], k) then Some(|edges| - 1) else None
  }

  /** Newer evidence over older, but an observation is never downgraded to a declaration. */
  function Merge(old_: Evidence, new_: Evidence): Evidence {
    var kept := old_.mode == Observed && new_.mode == Declared;
    var e := if kept then new_.(mode := Observed, alsoDeclared := true) else new_;
    Evidence(e.mode, old_.alsoDeclared || e.alsoDeclared, old_.details + e.details)
  }

  /** `winner` is the edge of the same key that another writer commits between the lookup and the insert: it is
      read back as it stands. */
  function Write(edges: seq<Edge>, r: Request, winner: Option<Request>): seq<Edge> {
    match Find(edges, r.key)
    case Some(i) => edges[i := edges[i].(evidence := Merge(edges[i].evidence, r.evidence))]
    case None =>
      var w := winner.GetOr(r);
      edges + [Edge(r.key, w.provenance, w.evidence, false)]
  }

  /** What a write leaves: the live edge with the newer details over the older ones, its provenance kept; or a new live
      edge, the winner's if there is one, and otherwise just as requested. */
  lemma WriteMeans(edges: seq<Edge>, r: Request, winner: Option<Request>, i: nat)
    requires i < |Write(edges, r, winner)|
    ensures var after, at := Write(edges, r, winner)[i], Find(edges, r.key);
            if at == Some(i) then
              && after.key == r.key && !after.revoked && after.provenance == edges[i].provenance
              && (after.evidence.mode == Observed <==>
                    edges[i].evidence.mode == Observed || r.evidence.mode == Observed)
              && after.evidence.details.Keys == edges[i].evidence.details.Keys + r.evidence.details.Keys
              && (forall x :: x in r.evidence.details ==> after.evidence.details[x] == r.evidence.details[x])
              && (forall x :: x in edges[i].evidence.details && x !in r.evidence.details ==>
                    after.evidence.details[x] == edges[i].evidence.details[x])
            else if i < |edges| then after == edges[i]
            else
              && at.None? && i == |edges| && after.key == r.key && !after.revoked
              && after.provenance == (if winner.Some? then winner.value.provenance else r.provenance)
              && after.evidence == (if winner.Some? then winner.value.evidence else r.evidence)
  {
  }

  // ----- Runs -----

  datatype Action = Upsert(request: Request, winner: Option<Request>) | Revoke(index: nat)

  predicate Revocable(edges: seq<Edge>, index: nat) {
    index < |edges| && !edges[index].revoked && Shape(edges[index].key.edge).Some?
  }

  function Apply(edges: seq<Edge>, a: Action): seq<Edge> {
    match a
    case Upsert(r, winner) => Write(edges, r, winner)
    case Revoke(i) => if Revocable(edges, i) then edges[i := edges[i].(revoked := true)] else edges
  }

  function ApplyAll(edges: seq<Edge>, actions: seq<Action>): seq<Edge> {
    if actions == [] then edges else Apply(ApplyAll(edges, actions[..|actions| - 1]), actions[|actions| - 1])
  }

  ghost predicate OneLive(edges: seq<Edge>) {
    forall i, j :: 0 <= i < j < |edges| && !edges[i].revoked && !edges[j].revoked ==> edges[i].key != edges[j].key
  }

  ghost predicate WellFormed(edges: seq<Edge>) {
    OneLive(edges) && forall i :: 0 <= i < |edges| ==> Shaped(edges[i].key)
  }

  predicate ShapedAction(a: Action) {
    a.Upsert? ==> Shaped(a.request.key)
  }

  /** What a row may go through: new evidence while live, and one revocation. */
  ghost predicate RowsOnlyAdvance(before: seq<Edge>, after: seq<Edge>) {
    && |before| <= |after|
    && forall i :: 0 <= i < |before| ==>
         && after[i].key == before[i].key && after[i].provenance == before[i].provenance
         && (before[i].revoked ==> after[i] == before[i])
         && (before[i].evidence.mode == Observed ==> after[i].evidence.mode == Observed)
         && before[i].evidence.details.Keys <= after[i].evidence.details.Keys
  }

  /** In every run each key has at most one live edge, every edge fits its shape, and rows only advance: the
      provenance in particular stays the first writer's. */
  lemma {:induction false} RunKeepsTable(edges: seq<Edge>, actions: seq<Action>)
    requires WellFormed(edges) && forall a :: a in actions ==> ShapedAction(a)
    ensures WellFormed(ApplyAll(edges, actions)) && RowsOnlyAdvance(edges, ApplyAll(edges, actions))
  {
    if actions != [] {
      var before := ApplyAll(edges, actions[..|actions| - 1]);
      RunKeepsTable(edges, actions[..|actions| - 1]);
      StepKeepsTable(before, actions[|actions| - 1]);
    }
  }

  lemma StepKeepsTable(edges: seq<Edge>, a: Action)
    requires WellFormed(edges) && ShapedAction(a)
    ensures WellFormed(Apply(edges, a)) && RowsOnlyAdvance(edges, Apply(edges, a))
  {
  }

  // ----- What the mode of a live edge means -----

  /** The evidence an action leaves behind for a key, if it writes that key at all. */
  function Evidenced(edges: seq<Edge>, a: Action, k: Key): Option<Evidence> {
    if a.Revoke? || a.request.key != k then None
    else if Find(edges, k).None? then Some(a.winner.GetOr(a.request).evidence)
    else Some(a.request.evidence)
  }

  predicate Revokes(edges: seq<Edge>, a: Action, k: Key) {
    a.Revoke? && Revocable(edges, a.index) && edges[a.index].key == k
  }

  predicate RevokesAt(edges: seq<Edge>, actions: seq<Action>, k: Key, m: nat) {
    m < |actions| && Revokes(ApplyAll(edges, actions[..m]), actions[m], k)
  }

  predicate LeavesAt(edges: seq<Edge>, actions: seq<Action>, k: Key, mode: Mode, n: nat) {
    n < |actions| && Leaves(ApplyAll(edges, actions[..n]), actions[n], k, mode)
  }

  predicate Leaves(edges: seq<Edge>, a: Action, k: Key, mode: Mode) {
    Evidenced(edges, a, k).Some? && Evidenced(edges, a, k).value.mode == mode
  }

  /** Action `n` left evidence of this mode, and the edge it wrote has not been revoked since. */
  ghost predicate Stands(edges: seq<Edge>, actions: seq<Action>, k: Key, mode: Mode, n: nat) {
    LeavesAt(edges, actions, k, mode, n) && forall m :: n <= m < |actions| ==> !RevokesAt(edges, actions, k, m)
  }

  lemma PrefixAgrees(edges: seq<Edge>, actions: seq<Action>, k: Key, mode: Mode, m: nat)
    requires m < |actions|
    ensures var front, last := actions[..|actions| - 1], actions[|actions| - 1];
            if m == |front| then
              && (RevokesAt(edges, actions, k, m) <==> Revokes(ApplyAll(edges, front), last, k))
              && (LeavesAt(edges, actions, k, mode, m) <==> Leaves(ApplyAll(edges, front), last, k, mode))
            else
              && (RevokesAt(edges, actions, k, m) <==> RevokesAt(edges, front, k, m))
              && (LeavesAt(edges, actions, k, mode, m) <==> LeavesAt(edges, front, k, mode, m))
  {
    assert actions[..|actions| - 1][..m] == actions[..m];
  }

  lemma StandsStep(edges: seq<Edge>, actions: seq<Action>, k: Key, mode: Mode, n: nat)
    requires n < |actions|
    ensures var front, last := actions[..|actions| - 1], actions[|actions| - 1];
            Stands(edges, actions, k, mode, n) <==>
              && !Revokes(ApplyAll(edges, front), last, k)
              && (if n == |front| then Leaves(ApplyAll(edges, front), last, k, mode)
                  else Stands(edges, front, k, mode, n))
  {
    var front, last := actions[..|actions| - 1], actions[|actions| - 1];
    forall m | n <= m < |actions|
      ensures RevokesAt(edges, actions, k, m) <==>
          if m == |front| then Revokes(ApplyAll(edges, front), last, k) else RevokesAt(edges, front, k, m)
    {
      PrefixAgrees(edges, actions, k, mode, m);
    }
    PrefixAgrees(edges, actions, k, mode, n);
    assert RevokesAt(edges, actions, k, |front|) <==> Revokes(ApplyAll(edges, front), last, k);
  }

  ghost predicate Seen(edges: seq<Edge>, actions: seq<Action>, k: Key, mode: Mode) {
    exists n :: Stands(edges, actions, k, mode, n)
  }

  /** An observation that stands was followed by a declaration. */
  ghost predicate SeenThenDeclared(edges: seq<Edge>, actions: seq<Action>, k: Key) {
    exists n, m :: n < m && Stands(edges, actions, k, Observed, n) && Stands(edges, actions, k, Declared, m)
  }

  ghost predicate PlainEvidence(a: Action) {
    a.Upsert? ==> !a.request.evidence.alsoDeclared && !a.winner.GetOr(a.request).evidence.alsoDeclared
  }

  lemma SeenStep(edges: seq<Edge>, actions: seq<Action>, k: Key, mode: Mode)
    requires actions != []
    ensures var front, last := actions[..|actions| - 1], actions[|actions| - 1];
            var before := ApplyAll(edges, front);
            Seen(edges, actions, k, mode) <==>
              !Revokes(before, last, k) && (Seen(edges, front, k, mode) || Leaves(before, last, k, mode))
  {
    var front, last := actions[..|actions| - 1], actions[|actions| - 1];
    if n :| Stands(edges, actions, k, mode, n) {
      StandsStep(edges, actions, k, mode, n);
    }
    if n :| Stands(edges, front, k, mode, n) {
      StandsStep(edges, actions, k, mode, n);
    }
    StandsStep(edges, actions, k, mode, |front|);
  }

  lemma SeenThenDeclaredStep(edges: seq<Edge>, actions: seq<Action>, k: Key)
    requires actions != []
    ensures var front, last := actions[..|actions| - 1], actions[|actions| - 1];
            var before := ApplyAll(edges, front);
            SeenThenDeclared(edges, actions, k) <==>
              && !Revokes(before, last, k)
              && (SeenThenDeclared(edges, front, k)
                  || (Seen(edges, front, k, Observed) && Leaves(before, last, k, Declared)))
  {
    var front, last := actions[..|actions| - 1], actions[|actions| - 1];
    var before := ApplyAll(edges, front);
    if n, m :| n < m && Stands(edges, actions, k, Observed, n) && Stands(edges, actions, k, Declared, m) {
      StandsStep(edges, actions, k, Observed, n);
      StandsStep(edges, actions, k, Declared, m);
    }
    if !Revokes(before, last, k) {
      if n, m :| n < m && Stands(edges, front, k, Observed, n) && Stands(edges, front, k, Declared, m) {
        StandsStep(edges, actions, k, Observed, n);
        StandsStep(edges, actions, k, Declared, m);
      }
      if n :| Stands(edges, front, k, Observed, n) && Leaves(before, last, k, Declared) {
        StandsStep(edges, actions, k, Observed, n);
        StandsStep(edges, actions, k, Declared, |front|);
      }
    }
  }

  /** What is known of a key agrees with its history. */
  ghost predicate Agrees(edges: seq<Edge>, actions: seq<Action>, k: Key) {
    var at := Find(ApplyAll(edges, actions), k);
    && (at.Some? <==> Seen(edges, actions, k, Observed) || Seen(edges, actions, k, Declared))
    && (at.Some? ==>
          var e := ApplyAll(edges, actions)[at.value].evidence;
          && (e.mode == Observed <==> Seen(edges, actions, k, Observed))
          && (e.alsoDeclared <==> SeenThenDeclared(edges, actions, k)))
  }

  lemma AgreesStep(edges: seq<Edge>, actions: seq<Action>, k: Key)
    requires actions != [] && PlainEvidence(actions[|actions| - 1])
    requires var front := actions[..|actions| - 1]; OneLive(ApplyAll(edges, front)) && Agrees(edges, front, k)
    ensures OneLive(ApplyAll(edges, actions)) && Agrees(edges, actions, k)
  {
    SeenStep(edges, actions, k, Observed);
    SeenStep(edges, actions, k, Declared);
    SeenThenDeclaredStep(edges, actions, k);
    OneStepOfEvidence(ApplyAll(edges, actions[..|actions| - 1]), actions[|actions| - 1], k);
  }

  /** In every run from a table without the edge: it is live iff some write of it stands, its mode is OBSERVED
      iff an observation stands, and it is marked as also declared iff a declaration came after the observation. */
  lemma {:induction false} EvidenceMeansHistory(edges: seq<Edge>, actions: seq<Action>, k: Key)
    requires OneLive(edges) && !IsLive(edges, k)
    requires forall a :: a in actions ==> PlainEvidence(a)
    ensures OneLive(ApplyAll(edges, actions)) && Agrees(edges, actions, k)
  {
    if actions != [] {
      assert actions[|actions| - 1] in actions;
      EvidenceMeansHistory(edges, actions[..|actions| - 1], k);
      AgreesStep(edges, actions, k);
    }
  }

  /** How one action changes what is known of one key. */
  lemma OneStepOfEvidence(edges: seq<Edge>, a: Action, k: Key)
    requires OneLive(edges)
    ensures OneLive(Apply(edges, a))
    ensures var at, after, e := Find(edges, k), Find(Apply(edges, a), k), Evidenced(edges, a, k);
            if e.Some? then
              after.Some?
              && Apply(edges, a)[after.value].evidence
                 == (if at.Some? then Merge(edges[at.value].evidence, e.value) else e.value)
            else if Revokes(edges, a, k) then after.None?
            else
              at.Some? == after.Some?
              && (at.Some? ==> Apply(edges, a)[after.value].evidence == edges[at.value].evidence)
  {
    var t := Apply(edges, a);
    var at := Find(edges, k);
    if at.Some? && !Revokes(edges, a, k) {
      assert Live(t[at.value], k);
    } else if a.Upsert? && a.request.key == k {
      assert Live(t[|edges|], k);
    }
  }

  /** An observation is kept unless the insert loses its race to a declaration: the winner's row is returned
      without merging the evidence of the loser. */
  lemma ObservationKeptIff(edges: seq<Edge>, r: Request, winner: Option<Request>)
    requires OneLive(edges) && r.evidence.mode == Observed
    ensures var after := Write(edges, r, winner);
            Find(after, r.key).Some?
            && (after[Find(after, r.key).value].evidence.mode == Observed
                <==> !(Find(edges, r.key).None? && winner.Some? && winner.value.evidence.mode == Declared))
  {
    OneStepOfEvidence(edges, Upsert(r, winner), r.key);
  }
}

/** Deriving an agent's edges from recorded evidence (backend/app/graph/dependencies.py:153-345). */
module DependencyBuild {
  import opened Wrappers
  import opened DependencyEdges

  datatype Call = Call(tool: nat, count: int, sample: Value, lastSeen: Value)
  datatype Assignment = Assignment(tool: nat, status: string)
  datatype ToolCredential = ToolCredential(id: nat, tool: nat, active: bool, hint: string)
  datatype ProviderUse = ProviderUse(credential: Option<nat>, provider: string, model: Value)

  /** The rows a build reads: the nodes that resolve in the organization, the agent's calls (one row a tool),
      its assignments, the tool credentials, each tool's server, and the published version's provider. */
  datatype Facts = Facts(
    nodes: set<(NodeType, nat)>, calls: seq<Call>, assignments: seq<Assignment>, credentials: seq<ToolCredential>,
    servers: map<nat, nat>, published: Option<ProviderUse>)

  predicate Resolves(f: Facts, kind: NodeType, id: nat) {
    (kind, id) in f.nodes
  }

  // ----- What the evidence requires -----

  predicate HasCall(calls: seq<Call>, tool: nat) {
    exists c :: c in calls && c.tool == tool
  }

  lemma HasCallLast(calls: seq<Call>, i: nat)
    requires i < |calls|
    ensures forall t :: HasCall(calls[..i + 1], t) <==> HasCall(calls[..i], t) || t == calls[i].tool
  {
    assert calls[..i + 1] == calls[..i] + [calls[i]];
  }

  predicate Calls(f: Facts, tool: nat) {
    Resolves(f, ToolNode, tool) && HasCall(f.calls, tool)
  }

  predicate Assigned(f: Facts, tool: nat) {
    Resolves(f, ToolNode, tool) && exists a :: a in f.assignments && a.tool == tool
  }

  predicate Depends(f: Facts, tool: nat) {
    Calls(f, tool) || Assigned(f, tool)
  }

  predicate ServedBy(f: Facts, tool: nat, server: nat) {
    tool in f.servers && f.servers[tool] == server && Resolves(f, McpServerNode, server)
  }

  /** The tool resolves here, and the agent has called it or has it assigned. */
  ghost predicate Needs(f: Facts, t: nat) {
    && (ToolNode, t) in f.nodes
    && ((exists c :: c in f.calls && c.tool == t) || (exists a :: a in f.assignments && a.tool == t))
  }

  /** The tool is registered on the server, which resolves here. */
  predicate OnServer(f: Facts, t: nat, m: nat) {
    t in f.servers && f.servers[t] == m && (McpServerNode, m) in f.nodes
  }

  ghost predicate NeedsTool(f: Facts, agent: nat, k: Key) {
    exists t :: Needs(f, t) && k == Key(AgentNode, agent, DependsOnTool, ToolNode, t)
  }

  ghost predicate NeedsCredential(f: Facts, k: Key) {
    exists t, c :: Needs(f, t) && c in f.credentials && c.tool == t && c.active
                && k == Key(ToolNode, t, ToolUsesCredential, CredentialNode, c.id)
  }

  ghost predicate NeedsServer(f: Facts, agent: nat, k: Key) {
    exists t, m :: Needs(f, t) && OnServer(f, t, m)
                && (k == Key(AgentNode, agent, DependsOnMcpServer, McpServerNode, m)
                    || k == Key(McpServerNode, m, McpExposesTool, ToolNode, t))
  }

  predicate NeedsProvider(f: Facts, agent: nat, k: Key) {
    && f.published.Some? && f.published.value.credential.Some?
    && k == Key(AgentNode, agent, DependsOnCredential, CredentialNode, f.published.value.credential.value)
  }

  /** The keys an agent's evidence calls for: each tool needed; that tool's active credentials; its server, and that
      the server exposes it; and the credential of the published version's provider. */
  ghost predicate Required(f: Facts, agent: nat, k: Key) {
    NeedsTool(f, agent, k) || NeedsCredential(f, k) || NeedsServer(f, agent, k) || NeedsProvider(f, agent, k)
  }

  lemma NeedsIff(f: Facts)
    ensures forall t :: Needs(f, t) <==> Depends(f, t)
    ensures forall t, m :: OnServer(f, t, m) <==> ServedBy(f, t, m)
  {
  }

  function ToolKey(agent: nat, tool: nat): Key { Key(AgentNode, agent, DependsOnTool, ToolNode, tool) }
  function CredentialKey(tool: nat, credential: nat): Key {
    Key(ToolNode, tool, ToolUsesCredential, CredentialNode, credential)
  }
  function ServerKey(agent: nat, server: nat): Key { Key(AgentNode, agent, DependsOnMcpServer, McpServerNode, server) }
  function ExposureKey(server: nat, tool: nat): Key { Key(McpServerNode, server, McpExposesTool, ToolNode, tool) }
  function ProviderKey(agent: nat, credential: nat): Key {
    Key(AgentNode, agent, DependsOnCredential, CredentialNode, credential)
  }

  // ----- The requests of one build -----

  function CallRequest(agent: nat, c: Call): Request {
    Request(ToolKey(agent, c.tool), Derived,
            Evidence(Observed, false, map[Source := Text("tool_calls"), CallCount := Number(c.count),
                                          SampleCall := c.sample, LastSeen := c.lastSeen]))
  }

  function Declaring(k: Key, source: string, more: map<Field, Value>): Request {
    Request(k, Derived, Evidence(Declared, false, map[Source := Text(source)] + more))
  }

  function CallWork(f: Facts, agent: nat, calls: seq<Call>): seq<Request> {
    if calls == [] then []
    else
      var c := calls[|calls| - 1];
      CallWork(f, agent, calls[..|calls| - 1]) + if Resolves(f, ToolNode, c.tool) then [CallRequest(agent, c)] else []
  }

  function AssignmentRequest(agent: nat, a: Assignment): Request {
    Declaring(ToolKey(agent, a.tool), "agent_tools", map[AssignmentStatus := Text(a.status)])
  }

  function AssignmentWork(f: Facts, agent: nat, rows: seq<Assignment>): seq<Request> {
    if rows == [] then []
    else
      var a := rows[|rows| - 1];
      AssignmentWork(f, agent, rows[..|rows| - 1])
      + if Resolves(f, ToolNode, a.tool) then [AssignmentRequest(agent, a)] else []
  }

  function CredentialRequest(tool: nat, c: ToolCredential): Request {
    Declaring(CredentialKey(tool, c.id), "tool_credentials", map[Hint := Text(c.hint)])
  }

  function CredentialWork(tool: nat, rows: seq<ToolCredential>): seq<Request> {
    if rows == [] then []
    else
      var c := rows[|rows| - 1];
      CredentialWork(tool, rows[..|rows| - 1]) + if c.tool == tool && c.active then [CredentialRequest(tool, c)] else []
  }

  function ServerRequests(agent: nat, tool: nat, server: nat): seq<Request> {
    [Declaring(ServerKey(agent, server), "tools.mcp_server_id", map[ViaTool := Number(tool)]),
     Declaring(ExposureKey(server, tool), "tools.mcp_server_id", map[])]
  }

  function ServerWork(f: Facts, agent: nat, tool: nat): seq<Request> {
    if tool in f.servers && Resolves(f, McpServerNode, f.servers[tool])
    then ServerRequests(agent, tool, f.servers[tool]) else []
  }

  /** The tools are visited in an order the source leaves open. */
  function ToolWork(f: Facts, agent: nat, order: seq<nat>): seq<Request> {
    if order == [] then []
    else
      var t := order[|order| - 1];
      ToolWork(f, agent, order[..|order| - 1]) + CredentialWork(t, f.credentials) + ServerWork(f, agent, t)
  }

  lemma OneMoreTool(order: seq<nat>, t: nat)
    requires Distinct(order) && t !in order
    ensures Distinct(order + [t]) && forall u :: u in order + [t] <==> u in order || u == t
  {
  }

  lemma CallWorkLast(f: Facts, agent: nat, i: nat, work: seq<Request>)
    requires i < |f.calls|
    ensures var c := f.calls[i];
            work + CallWork(f, agent, f.calls[..i + 1])
            == work + CallWork(f, agent, f.calls[..i])
               + if Resolves(f, ToolNode, c.tool) then [CallRequest(agent, c)] else []
    ensures work + CallWork(f, agent, f.calls[..i]) + [] == work + CallWork(f, agent, f.calls[..i])
  {
    assert f.calls[..i + 1][..i] == f.calls[..i];
  }

  lemma AssignmentWorkLast(f: Facts, agent: nat, i: nat, work: seq<Request>)
    requires i < |f.assignments|
    ensures var a := f.assignments[i];
            work + AssignmentWork(f, agent, f.assignments[..i + 1])
            == work + AssignmentWork(f, agent, f.assignments[..i])
               + if Resolves(f, ToolNode, a.tool) then [AssignmentRequest(agent, a)] else []
    ensures work + AssignmentWork(f, agent, f.assignments[..i]) + []
            == work + AssignmentWork(f, agent, f.assignments[..i])
  {
    assert f.assignments[..i + 1][..i] == f.assignments[..i];
  }

  lemma CredentialWorkLast(f: Facts, t: nat, i: nat, work: seq<Request>)
    requires i < |f.credentials|
    ensures var c := f.credentials[i];
            work + CredentialWork(t, f.credentials[..i + 1])
            == work + CredentialWork(t, f.credentials[..i])
               + if c.tool == t && c.active then [CredentialRequest(t, c)] else []
    ensures work + CredentialWork(t, f.credentials[..i]) + [] == work + CredentialWork(t, f.credentials[..i])
  {
    assert f.credentials[..i + 1][..i] == f.credentials[..i];
  }

  lemma ToolWorkLast(f: Facts, agent: nat, order: seq<nat>, t: nat, work: seq<Request>)
    ensures work + ToolWork(f, agent, order + [t])
            == work + ToolWork(f, agent, order) + CredentialWork(t, f.credentials) + ServerWork(f, agent, t)
  {
    assert (order + [t])[..|order|] == order;
    var a, b, c := ToolWork(f, agent, order), CredentialWork(t, f.credentials), ServerWork(f, agent, t);
    assert ToolWork(f, agent, order + [t]) == a + b + c;
    assert work + (a + b + c) == work + a + b + c;
  }

  function ProviderWork(f: Facts, agent: nat): seq<Request> {
    if f.published.None? || f.published.value.credential.None? then []
    else
      var p := f.published.value;
      [Declaring(ProviderKey(agent, p.credential.value), "provider_credentials",
                 map[Provider := Text(p.provider), Model := p.model])]
  }

  function Work(f: Facts, agent: nat, order: seq<nat>): seq<Request> {
    CallWork(f, agent, f.calls) + AssignmentWork(f, agent, f.assignments) + ToolWork(f, agent, order)
    + ProviderWork(f, agent)
  }

  ghost predicate Enumerates(f: Facts, order: seq<nat>) {
    forall t :: t in order <==> Depends(f, t)
  }

  /** Every tool comes up once. */
  ghost predicate Distinct(order: seq<nat>) {
    forall i, j :: 0 <= i < j < |order| ==> order[i] != order[j]
  }

  ghost predicate Writes(work: seq<Request>, k: Key) {
    exists r :: r in work && r.key == k
  }

  lemma WritesConcat(a: seq<Request>, b: seq<Request>, k: Key)
    ensures Writes(a + b, k) <==> Writes(a, k) || Writes(b, k)
  {
    assert forall r :: r in a + b <==> r in a || r in b;
  }

  lemma {:induction false} CallWorkWrites(f: Facts, agent: nat, calls: seq<Call>, r: Request)
    ensures r in CallWork(f, agent, calls) <==>
        exists c :: c in calls && Resolves(f, ToolNode, c.tool) && r == CallRequest(agent, c)
  {
    if calls != [] {
      var front, c := calls[..|calls| - 1], calls[|calls| - 1];
      CallWorkWrites(f, agent, front, r);
      assert calls == front + [c];
    }
  }

  lemma {:induction false} AssignmentWorkWrites(f: Facts, agent: nat, rows: seq<Assignment>, r: Request)
    ensures r in AssignmentWork(f, agent, rows) <==>
        exists a :: a in rows && Resolves(f, ToolNode, a.tool) && r == AssignmentRequest(agent, a)
  {
    if rows != [] {
      var front, a := rows[..|rows| - 1], rows[|rows| - 1];
      AssignmentWorkWrites(f, agent, front, r);
      assert rows == front + [a];
    }
  }

  lemma {:induction false} CredentialWorkWrites(tool: nat, rows: seq<ToolCredential>, r: Request)
    ensures r in CredentialWork(tool, rows) <==>
        exists c :: c in rows && c.tool == tool && c.active && r == CredentialRequest(tool, c)
  {
    if rows != [] {
      var front, c := rows[..|rows| - 1], rows[|rows| - 1];
      CredentialWorkWrites(tool, front, r);
      assert rows == front + [c];
    }
  }

  lemma {:induction false} ToolWorkWrites(f: Facts, agent: nat, order: seq<nat>, r: Request)
    ensures r in ToolWork(f, agent, order) <==>
        exists t :: t in order && (r in CredentialWork(t, f.credentials) || r in ServerWork(f, agent, t))
  {
    if order != [] {
      var front, t := order[..|order| - 1], order[|order| - 1];
      ToolWorkWrites(f, agent, front, r);
      assert order == front + [t];
    }
  }

  /** A build writes exactly the required keys. */
  lemma BuildWritesRequired(f: Facts, agent: nat, order: seq<nat>, k: Key)
    requires Enumerates(f, order)
    ensures Writes(Work(f, agent, order), k) <==> Required(f, agent, k)
  {
    var a, b := CallWork(f, agent, f.calls), AssignmentWork(f, agent, f.assignments);
    var c, d := ToolWork(f, agent, order), ProviderWork(f, agent);
    WritesConcat(a + b + c, d, k);
    WritesConcat(a + b, c, k);
    WritesConcat(a, b, k);
    ToolKeysWritten(f, agent, k);
    ToolWorkKeys(f, agent, order, k);
    ProviderKeyWritten(f, agent, k);
  }

  lemma ProviderKeyWritten(f: Facts, agent: nat, k: Key)
    ensures Writes(ProviderWork(f, agent), k) <==> NeedsProvider(f, agent, k)
  {
    if NeedsProvider(f, agent, k) {
      assert ProviderWork(f, agent)[0] in ProviderWork(f, agent);
    }
  }

  predicate RecordsCall(agent: nat, c: Call, r: Request) {
    && r.key == Key(AgentNode, agent, DependsOnTool, ToolNode, c.tool)
    && r.provenance == Derived && r.evidence.mode == Observed && !r.evidence.alsoDeclared
    && r.evidence.details == map[Source := Text("tool_calls"), CallCount := Number(c.count), SampleCall := c.sample,
                                 LastSeen := c.lastSeen]
  }

  predicate RecordsAssignment(agent: nat, a: Assignment, r: Request) {
    && r.key == Key(AgentNode, agent, DependsOnTool, ToolNode, a.tool) && Declares(r) && r.provenance == Derived
    && r.evidence.details == map[Source := Text("agent_tools"), AssignmentStatus := Text(a.status)]
  }

  predicate RecordsCredential(t: nat, c: ToolCredential, r: Request) {
    && r.key == Key(ToolNode, t, ToolUsesCredential, CredentialNode, c.id) && Declares(r) && r.provenance == Derived
    && r.evidence.details == map[Source := Text("tool_credentials"), Hint := Text(c.hint)]
  }

  predicate RecordsServer(agent: nat, t: nat, m: nat, r: Request) {
    && Declares(r) && r.provenance == Derived
    && ((r.key == Key(AgentNode, agent, DependsOnMcpServer, McpServerNode, m)
         && r.evidence.details == map[Source := Text("tools.mcp_server_id"), ViaTool := Number(t)])
        || (r.key == Key(McpServerNode, m, McpExposesTool, ToolNode, t)
            && r.evidence.details == map[Source := Text("tools.mcp_server_id")]))
  }

  predicate RecordsProvider(agent: nat, p: ProviderUse, r: Request)
    requires p.credential.Some?
  {
    && r.key == Key(AgentNode, agent, DependsOnCredential, CredentialNode, p.credential.value)
    && Declares(r) && r.provenance == Derived
    && r.evidence.details == map[Source := Text("provider_credentials"), Provider := Text(p.provider), Model := p.model]
  }

  /** What each kind of request links and records, in full. */
  lemma RequestsSay(agent: nat, c: Call, a: Assignment)
    ensures RecordsCall(agent, c, CallRequest(agent, c))
    ensures RecordsAssignment(agent, a, AssignmentRequest(agent, a))
  {
    assert AssignmentRequest(agent, a).evidence.details
        == map[Source := Text("agent_tools"), AssignmentStatus := Text(a.status)];
  }

  lemma ToolRequestsSay(agent: nat, t: nat, c: ToolCredential, m: nat)
    ensures RecordsCredential(t, c, CredentialRequest(t, c))
    ensures forall r :: r in ServerRequests(agent, t, m) ==> RecordsServer(agent, t, m, r)
    ensures Writes(ServerRequests(agent, t, m), Key(AgentNode, agent, DependsOnMcpServer, McpServerNode, m))
    ensures Writes(ServerRequests(agent, t, m), Key(McpServerNode, m, McpExposesTool, ToolNode, t))
  {
    var requests := ServerRequests(agent, t, m);
    assert forall r :: r in requests ==> r == requests[0] || r == requests[1];
    assert requests[0] in requests && requests[1] in requests;
    assert requests[0].evidence.details == map[Source := Text("tools.mcp_server_id"), ViaTool := Number(t)];
    assert requests[1].evidence.details == map[Source := Text("tools.mcp_server_id")];
    assert CredentialRequest(t, c).evidence.details == map[Source := Text("tool_credentials"), Hint := Text(c.hint)];
  }

  lemma ProviderRequestSays(f: Facts, agent: nat)
    requires f.published.Some? && f.published.value.credential.Some?
    ensures |ProviderWork(f, agent)| == 1 && RecordsProvider(agent, f.published.value, ProviderWork(f, agent)[0])
  {
    var p := f.published.value;
    assert ProviderWork(f, agent)[0].evidence.details
        == map[Source := Text("provider_credentials"), Provider := Text(p.provider), Model := p.model];
  }

  lemma ToolKeysWritten(f: Facts, agent: nat, k: Key)
    ensures Writes(CallWork(f, agent, f.calls), k) || Writes(AssignmentWork(f, agent, f.assignments), k)
            <==> NeedsTool(f, agent, k)
  {
    NeedsIff(f);
    forall r ensures r in CallWork(f, agent, f.calls) <==>
        exists c :: c in f.calls && Resolves(f, ToolNode, c.tool) && r == CallRequest(agent, c) {
      CallWorkWrites(f, agent, f.calls, r);
    }
    forall r ensures r in AssignmentWork(f, agent, f.assignments)
                     <==> exists a ::
                       a in f.assignments && Resolves(f, ToolNode, a.tool) && r == AssignmentRequest(agent, a) {
      AssignmentWorkWrites(f, agent, f.assignments, r);
    }
    if t :| Depends(f, t) && k == ToolKey(agent, t) {
      if Calls(f, t) {
        var c :| c in f.calls && c.tool == t;
        assert CallRequest(agent, c) in CallWork(f, agent, f.calls);
      } else {
        var a :| a in f.assignments && a.tool == t;
        assert AssignmentRequest(agent, a) in AssignmentWork(f, agent, f.assignments);
      }
    }
  }

  lemma ToolWorkKeys(f: Facts, agent: nat, order: seq<nat>, k: Key)
    requires Enumerates(f, order)
    ensures Writes(ToolWork(f, agent, order), k) <==> NeedsCredential(f, k) || NeedsServer(f, agent, k)
  {
    NeedsIff(f);
    if r :| r in ToolWork(f, agent, order) && r.key == k {
      ToolWorkWrites(f, agent, order, r);
      var t :| t in order && (r in CredentialWork(t, f.credentials) || r in ServerWork(f, agent, t));
      CredentialWorkWrites(t, f.credentials, r);
      if r in ServerWork(f, agent, t) {
        assert ServedBy(f, t, f.servers[t]);
      }
    }
    if t, c :| Depends(f, t) && c in f.credentials && c.tool == t && c.active && k == CredentialKey(t, c.id) {
      CredentialWorkWrites(t, f.credentials, CredentialRequest(t, c));
      ToolWorkWrites(f, agent, order, CredentialRequest(t, c));
    }
    if t, m :| Depends(f, t) && ServedBy(f, t, m) && (k == ServerKey(agent, m) || k == ExposureKey(m, t)) {
      var requests := ServerRequests(agent, t, m);
      assert t in order && requests[0] in ServerWork(f, agent, t) && requests[1] in ServerWork(f, agent, t);
      ToolWorkWrites(f, agent, order, requests[0]);
      ToolWorkWrites(f, agent, order, requests[1]);
    }
  }

  // ----- Writing a list of requests -----

  function WriteAll(edges: seq<Edge>, work: seq<Request>): seq<Edge> {
    if work == [] then edges else Write(WriteAll(edges, work[..|work| - 1]), work[|work| - 1], None)
  }

  /** How many of the requests found no live edge. */
  function Creations(edges: seq<Edge>, work: seq<Request>): nat {
    if work == [] then 0
    else Creations(edges, work[..|work| - 1])
         + if Find(WriteAll(edges, work[..|work| - 1]), work[|work| - 1].key).None? then 1 else 0
  }

  function Touched(work: seq<Request>): map<EdgeType, nat> {
    if work == [] then map[]
    else
      var before, e := Touched(work[..|work| - 1]), work[|work| - 1].key.edge;
      before[e := (if e in before then before[e] else 0) + 1]
  }

  ghost function LiveKeys(edges: seq<Edge>): set<Key> {
    set e | e in edges && !e.revoked :: e.key
  }

  ghost function KeysOf(work: seq<Request>): set<Key> {
    set r | r in work :: r.key
  }

  lemma LiveKeysHas(edges: seq<Edge>, k: Key)
    ensures k in LiveKeys(edges) <==> Find(edges, k).Some?
  {
    if k in LiveKeys(edges) {
      var e :| e in edges && !e.revoked && e.key == k;
      var i :| 0 <= i < |edges| && edges[i] == e;
      assert Live(edges[i], k);
    }
  }

  lemma WriteLives(edges: seq<Edge>, r: Request)
    requires OneLive(edges)
    ensures OneLive(Write(edges, r, None))
    ensures LiveKeys(Write(edges, r, None)) == LiveKeys(edges) + {r.key}
  {
    var after := Write(edges, r, None);
    forall k ensures k in LiveKeys(after) <==> k in LiveKeys(edges) || k == r.key {
      OneStepOfEvidence(edges, Upsert(r, None), k);
      LiveKeysHas(edges, k);
      LiveKeysHas(after, k);
    }
  }

  lemma OneMissingFewer<K>(keys: set<K>, live: set<K>, k: K)
    ensures |keys + {k} - live| == |keys - live| + if k in keys + live then 0 else 1
  {
    if k in keys + live {
      assert keys + {k} - live == keys - live;
    } else {
      assert keys + {k} - live == keys - live + {k};
    }
  }

  lemma KeysOfLast(work: seq<Request>)
    requires work != []
    ensures KeysOf(work) == KeysOf(work[..|work| - 1]) + {work[|work| - 1].key}
  {
    assert work == work[..|work| - 1] + [work[|work| - 1]];
  }

  lemma {:induction false} WriteAllLives(edges: seq<Edge>, work: seq<Request>)
    requires OneLive(edges)
    ensures OneLive(WriteAll(edges, work))
    ensures LiveKeys(WriteAll(edges, work)) == LiveKeys(edges) + KeysOf(work)
  {
    if work == [] {
      assert KeysOf(work) == {};
    } else {
      WriteAllLives(edges, work[..|work| - 1]);
      WriteLives(WriteAll(edges, work[..|work| - 1]), work[|work| - 1]);
      KeysOfLast(work);
    }
  }

  /** Writing makes exactly the written keys live as well, and counts exactly those that were not. */
  lemma {:induction false} WriteAllCreatesMissing(edges: seq<Edge>, work: seq<Request>)
    requires OneLive(edges)
    ensures LiveKeys(WriteAll(edges, work)) == LiveKeys(edges) + KeysOf(work)
    ensures Creations(edges, work) == |KeysOf(work) - LiveKeys(edges)|
    ensures |WriteAll(edges, work)| == |edges| + Creations(edges, work)
  {
    WriteAllLives(edges, work);
    if work == [] {
      assert KeysOf(work) - LiveKeys(edges) == {};
    } else {
      var front, k := work[..|work| - 1], work[|work| - 1].key;
      WriteAllCreatesMissing(edges, front);
      LiveKeysHas(WriteAll(edges, front), k);
      KeysOfLast(work);
      OneMissingFewer(KeysOf(front), LiveKeys(edges), k);
    }
  }

  /** Building again over the same evidence, in whatever order the tools come up, creates nothing and leaves the
      same edges live. */
  lemma RebuildCreatesNothing(edges: seq<Edge>, f: Facts, agent: nat, order: seq<nat>, again: seq<nat>)
    requires OneLive(edges) && Enumerates(f, order) && Enumerates(f, again)
    ensures var built := WriteAll(edges, Work(f, agent, order));
            && (forall k :: k in LiveKeys(built) <==> k in LiveKeys(edges) || Required(f, agent, k))
            && Creations(built, Work(f, agent, again)) == 0
            && LiveKeys(WriteAll(built, Work(f, agent, again))) == LiveKeys(built)
  {
    var w, v := Work(f, agent, order), Work(f, agent, again);
    var built := WriteAll(edges, w);
    WriteAllLives(edges, w);
    WriteAllCreatesMissing(built, v);
    forall k ensures k in KeysOf(w) <==> Required(f, agent, k) { BuildWritesRequired(f, agent, order, k); }
    forall k ensures k in KeysOf(v) <==> Required(f, agent, k) { BuildWritesRequired(f, agent, again, k); }
    assert KeysOf(v) - LiveKeys(built) == {};
    assert LiveKeys(built) + KeysOf(v) == LiveKeys(built);
  }

  // ----- A rebuild in the same order changes no row at all -----

  /** The requests for one key. */
  function For(work: seq<Request>, k: Key): seq<Evidence> {
    if work == [] then []
    else For(work[..|work| - 1], k) + if work[|work| - 1].key == k then [work[|work| - 1].evidence] else []
  }

  function MergeAll(e: Evidence, more: seq<Evidence>): Evidence {
    if more == [] then e else Merge(MergeAll(e, more[..|more| - 1]), more[|more| - 1])
  }

  function Details(more: seq<Evidence>): map<Field, Value> {
    if more == [] then map[] else Details(more[..|more| - 1]) + more[|more| - 1].details
  }

  ghost predicate HasMode(more: seq<Evidence>, mode: Mode) {
    exists e :: e in more && e.mode == mode
  }

  predicate Tells(d: map<Field, Value>, e: Evidence) {
    e.details + d == e.details
  }

  /** The evidence already says everything that `more` would add. */
  ghost predicate Absorbs(e: Evidence, more: seq<Evidence>) {
    && (HasMode(more, Observed) ==> e.mode == Observed)
    && (HasMode(more, Declared) && e.mode == Observed ==> e.alsoDeclared)
    && Tells(Details(more), e)
    && forall m :: m in more ==> !m.alsoDeclared
  }

  lemma HasModeLast(more: seq<Evidence>, m: Evidence, mode: Mode)
    ensures HasMode(more + [m], mode) <==> HasMode(more, mode) || m.mode == mode
  {
    assert m in more + [m];
    assert forall e :: e in more ==> e in more + [m];
  }

  lemma MapAssociates<K, V>(a: map<K, V>, b: map<K, V>, c: map<K, V>)
    ensures a + b + c == a + (b + c)
  {
  }

  /** What a map already tells is not changed by telling one more thing on both sides. */
  lemma MapAbsorbs<K, V>(a: map<K, V>, b: map<K, V>, c: map<K, V>)
    requires a + b == a
    ensures (a + c) + (b + c) == a + c
  {
    forall x | x in (a + c) + (b + c) ensures x in a + c && ((a + c) + (b + c))[x] == (a + c)[x] {
      if x in b && x !in c { assert (a + b)[x] == b[x]; }
    }
  }

  lemma {:induction false} MergeAllDetails(e: Evidence, more: seq<Evidence>)
    ensures MergeAll(e, more).details == e.details + Details(more)
  {
    if more != [] {
      var front := more[..|more| - 1];
      MergeAllDetails(e, front);
      MapAssociates(e.details, Details(front), more[|more| - 1].details);
    }
  }

  lemma {:induction false} MergeAllModes(e: Evidence, more: seq<Evidence>)
    requires forall m :: m in more ==> !m.alsoDeclared
    requires HasMode(more, Observed) ==> e.mode == Observed
    requires HasMode(more, Declared) && e.mode == Observed ==> e.alsoDeclared
    ensures MergeAll(e, more).mode == e.mode && MergeAll(e, more).alsoDeclared == e.alsoDeclared
  {
    if more != [] {
      var front, m := more[..|more| - 1], more[|more| - 1];
      assert more == front + [m];
      assert m in more;
      HasModeLast(front, m, Observed);
      HasModeLast(front, m, Declared);
      MergeAllModes(e, front);
    }
  }

  lemma AbsorbedChangesNothing(e: Evidence, more: seq<Evidence>)
    requires Absorbs(e, more)
    ensures MergeAll(e, more) == e
  {
    MergeAllDetails(e, more);
    MergeAllModes(e, more);
  }

  /** Observations come before declarations of the same key. */
  ghost predicate ObservedFirst(work: seq<Request>) {
    forall i, j :: 0 <= i < j < |work| && work[i].key == work[j].key && work[i].evidence.mode == Declared ==>
        work[j].evidence.mode == Declared
  }

  ghost predicate Plain(work: seq<Request>) {
    forall r :: r in work ==> !r.evidence.alsoDeclared
  }

  ghost predicate AllAbsorb(edges: seq<Edge>, work: seq<Request>) {
    forall i :: 0 <= i < |edges| && !edges[i].revoked ==> Absorbs(edges[i].evidence, For(work, edges[i].key))
  }

  lemma {:induction false} ForMembers(work: seq<Request>, k: Key, e: Evidence)
    ensures e in For(work, k) <==> exists i :: 0 <= i < |work| && work[i].key == k && work[i].evidence == e
  {
    if work != [] {
      ForMembers(work[..|work| - 1], k, e);
    }
  }

  lemma AbsorbsOneMore(e: Evidence, more: seq<Evidence>, m: Evidence)
    requires Absorbs(e, more) && !m.alsoDeclared && (m.mode == Observed ==> !HasMode(more, Declared))
    ensures Absorbs(Merge(e, m), more + [m])
  {
    assert (more + [m])[..|more|] == more;
    HasModeLast(more, m, Observed);
    HasModeLast(more, m, Declared);
    MapAbsorbs(e.details, Details(more), m.details);
  }

  lemma FirstAbsorbs(e: Evidence)
    requires !e.alsoDeclared
    ensures Absorbs(e, [e])
  {
    assert [e][..0] == [];
    assert Details([e]) == map[] + e.details == e.details;
    assert e in [e];
  }

  /** The last request of an ordered list may be merged after those before it. */
  lemma LastInOrder(work: seq<Request>)
    requires work != [] && ObservedFirst(work)
    ensures var front, r := work[..|work| - 1], work[|work| - 1];
            ObservedFirst(front) && (r.evidence.mode == Observed ==> !HasMode(For(front, r.key), Declared))
  {
    var front, r := work[..|work| - 1], work[|work| - 1];
    forall e | r.evidence.mode == Observed && e in For(front, r.key) ensures e.mode == Observed {
      ForMembers(front, r.key, e);
      var i :| 0 <= i < |front| && front[i].key == r.key && front[i].evidence == e;
      assert work[i] == front[i] && work[|front|] == r;
    }
  }

  lemma NothingForDeadKeys(edges: seq<Edge>, work: seq<Request>, k: Key)
    requires OneLive(edges) && Find(WriteAll(edges, work), k).None?
    ensures For(work, k) == []
  {
    if For(work, k) != [] {
      ForMembers(work, k, For(work, k)[0]);
      var i :| 0 <= i < |work| && work[i].key == k;
      assert work[i] in work;
      WriteAllLives(edges, work);
      LiveKeysHas(WriteAll(edges, work), k);
    }
  }

  lemma {:induction false} BuiltAbsorbs(edges: seq<Edge>, work: seq<Request>)
    requires OneLive(edges) && ObservedFirst(work) && Plain(work)
    ensures AllAbsorb(WriteAll(edges, work), work)
  {
    if work == [] {
      forall e: Evidence ensures Absorbs(e, []) { assert Details([]) == map[] && e.details + map[] == e.details; }
    } else {
      var front := work[..|work| - 1];
      LastInOrder(work);
      BuiltAbsorbs(edges, front);
      WriteAllLives(edges, front);
      if Find(WriteAll(edges, front), work[|front|].key).None? {
        NothingForDeadKeys(edges, front, work[|front|].key);
      }
      WriteAbsorbs(WriteAll(edges, front), work);
    }
  }

  lemma WriteAbsorbs(before: seq<Edge>, work: seq<Request>)
    requires work != [] && OneLive(before) && Plain(work)
    requires var front, r := work[..|work| - 1], work[|work| - 1];
             && AllAbsorb(before, front)
             && (r.evidence.mode == Observed ==> !HasMode(For(front, r.key), Declared))
             && (Find(before, r.key).None? ==> For(front, r.key) == [])
    ensures AllAbsorb(Write(before, work[|work| - 1], None), work)
  {
    var front, r := work[..|work| - 1], work[|work| - 1];
    var after := Write(before, r, None);
    var more := For(front, r.key);
    assert For(work, r.key) == more + [r.evidence];
    assert r in work;
    var at := Find(before, r.key);
    if at.Some? {
      AbsorbsOneMore(before[at.value].evidence, more, r.evidence);
    } else {
      FirstAbsorbs(r.evidence);
    }
    forall i | 0 <= i < |after| && !after[i].revoked ensures Absorbs(after[i].evidence, For(work, after[i].key)) {
      if after[i].key != r.key {
        assert before[i] == after[i];
        assert For(work, after[i].key) == For(front, after[i].key);
      }
    }
  }

  /** The row with all the evidence for its key merged in, unless it is closed. */
  function Merged(e: Edge, work: seq<Request>): Edge {
    if e.revoked then e else e.(evidence := MergeAll(e.evidence, For(work, e.key)))
  }

  lemma MergedLast(e: Edge, work: seq<Request>)
    requires work != []
    ensures var front, r := work[..|work| - 1], work[|work| - 1];
            Merged(e, work) == if e.revoked || e.key != r.key then Merged(e, front)
                               else e.(evidence := Merge(Merged(e, front).evidence, r.evidence))
  {
    var front, r := work[..|work| - 1], work[|work| - 1];
    var more := For(front, e.key);
    if e.key == r.key {
      assert (more + [r.evidence])[..|more|] == more;
    } else {
      assert For(work, e.key) == more + [] == more;
    }
  }

  /** While every key is live already, writing only merges evidence into the rows that are there. */
  lemma {:induction false} WriteAllMerges(edges: seq<Edge>, work: seq<Request>)
    requires OneLive(edges) && forall r :: r in work ==> Find(edges, r.key).Some?
    ensures |WriteAll(edges, work)| == |edges|
    ensures forall i :: 0 <= i < |edges| ==> WriteAll(edges, work)[i] == Merged(edges[i], work)
  {
    if work != [] {
      var front, r := work[..|work| - 1], work[|work| - 1];
      WriteAllMerges(edges, front);
      var before := WriteAll(edges, front);
      assert r in work;
      var at := Find(edges, r.key).value;
      assert Live(before[at], r.key);
      var found := Find(before, r.key).value;
      assert before[found] == Merged(edges[found], front);
      assert found == at;
      forall i | 0 <= i < |edges| ensures WriteAll(edges, work)[i] == Merged(edges[i], work) {
        MergedLast(edges[i], work);
      }
    }
  }

  /** Writing a list of requests twice is the same as writing it once, for every table and every list whose
      observations come first. */
  lemma WritingIsIdempotent(edges: seq<Edge>, work: seq<Request>)
    requires OneLive(edges) && ObservedFirst(work) && Plain(work)
    ensures WriteAll(WriteAll(edges, work), work) == WriteAll(edges, work)
  {
    var built := WriteAll(edges, work);
    BuiltAbsorbs(edges, work);
    WriteAllLives(edges, work);
    forall r | r in work ensures Find(built, r.key).Some? {
      assert r.key in KeysOf(work);
      LiveKeysHas(built, r.key);
    }
    WriteAllMerges(built, work);
    forall i | 0 <= i < |built| ensures WriteAll(built, work)[i] == built[i] {
      if !built[i].revoked {
        AbsorbedChangesNothing(built[i].evidence, For(work, built[i].key));
      }
    }
  }

  /** The order matters: a declaration followed by an observation is only flagged on the second pass. */
  lemma DeclaredFirstIsNotIdempotent(k: Key, declared: Evidence, observed: Evidence)
    requires declared.mode == Declared && observed.mode == Observed && !declared.alsoDeclared && !observed.alsoDeclared
    ensures var work := [Request(k, Derived, declared), Request(k, Derived, observed)];
            WriteAll(WriteAll([], work), work) != WriteAll([], work)
  {
    var d, o := Request(k, Derived, declared), Request(k, Derived, observed);
    var one, two := Edge(k, Derived, declared, false), Edge(k, Derived, Merge(declared, observed), false);
    var three := Edge(k, Derived, Merge(two.evidence, declared), false);
    WriteTwo([], d, o);
    WriteFirst(d);
    WriteOnly(one, o);
    WriteTwo([two], d, o);
    WriteOnly(two, d);
    WriteOnly(three, o);
    assert !two.evidence.alsoDeclared && Merge(three.evidence, observed).alsoDeclared;
  }

  lemma WriteTwo(edges: seq<Edge>, a: Request, b: Request)
    ensures WriteAll(edges, [a, b]) == Write(Write(edges, a, None), b, None)
  {
    assert [a, b][..1] == [a] && [a][..0] == [];
    assert WriteAll(edges, []) == edges;
  }

  lemma WriteFirst(r: Request)
    ensures Write([], r, None) == [Edge(r.key, r.provenance, r.evidence, false)]
  {
  }

  lemma WriteOnly(e: Edge, r: Request)
    requires Live(e, r.key)
    ensures Write([e], r, None) == [e.(evidence := Merge(e.evidence, r.evidence))]
  {
    assert Live([e][0], r.key);
  }

  predicate Declares(r: Request) {
    r.evidence.mode == Declared && !r.evidence.alsoDeclared
  }

  /** A build's own list is of that kind, and every request in it fits its edge type. */
  lemma BuildIsWellFormed(f: Facts, agent: nat, order: seq<nat>)
    ensures ObservedFirst(Work(f, agent, order)) && Plain(Work(f, agent, order))
    ensures forall r :: r in Work(f, agent, order) ==> Shaped(r.key) && Shape(r.key.edge).Some?
  {
    var w, n := Work(f, agent, order), |CallWork(f, agent, f.calls)|;
    forall i | 0 <= i < |w|
      ensures (if i < n then w[i].evidence.mode == Observed && !w[i].evidence.alsoDeclared else Declares(w[i]))
              && Shaped(w[i].key) && Shape(w[i].key.edge).Some?
    {
      RequestKind(f, agent, order, i);
    }
  }

  predicate FitsDeclared(r: Request) {
    Declares(r) && Shaped(r.key) && Shape(r.key.edge).Some?
  }

  lemma RequestKind(f: Facts, agent: nat, order: seq<nat>, i: nat)
    requires i < |Work(f, agent, order)|
    ensures var r := Work(f, agent, order)[i];
            && (if i < |CallWork(f, agent, f.calls)|
                 then r.evidence.mode == Observed && !r.evidence.alsoDeclared else Declares(r))
            && Shaped(r.key) && Shape(r.key.edge).Some?
  {
    var a, b, c := CallWork(f, agent, f.calls), AssignmentWork(f, agent, f.assignments), ToolWork(f, agent, order);
    var r := Work(f, agent, order)[i];
    if i < |a| {
      assert r in a;
      CallWorkWrites(f, agent, f.calls, r);
    } else if i < |a| + |b| {
      assert r == b[i - |a|];
      AssignmentWorkWrites(f, agent, f.assignments, r);
    } else if i < |a| + |b| + |c| {
      assert r == c[i - |a| - |b|];
      ToolRequestKind(f, agent, order, r);
    } else {
      assert r in ProviderWork(f, agent);
    }
  }

  lemma ToolRequestKind(f: Facts, agent: nat, order: seq<nat>, r: Request)
    requires r in ToolWork(f, agent, order)
    ensures FitsDeclared(r)
  {
    ToolWorkWrites(f, agent, order, r);
    var t :| t in order && (r in CredentialWork(t, f.credentials) || r in ServerWork(f, agent, t));
    if r in CredentialWork(t, f.credentials) {
      CredentialWorkWrites(t, f.credentials, r);
    } else {
      ServerRequestKind(f, agent, t, r);
    }
  }

  lemma ServerRequestKind(f: Facts, agent: nat, t: nat, r: Request)
    requires r in ServerWork(f, agent, t)
    ensures FitsDeclared(r)
  {
    var requests := ServerRequests(agent, t, f.servers[t]);
    assert r == requests[0] || r == requests[1];
  }

  /** So a rebuild over unchanged evidence in the same order leaves every row as it was. */
  lemma RebuildIsANoOp(edges: seq<Edge>, f: Facts, agent: nat, order: seq<nat>)
    requires OneLive(edges)
    ensures var built := WriteAll(edges, Work(f, agent, order)); WriteAll(built, Work(f, agent, order)) == built
  {
    BuildIsWellFormed(f, agent, order);
    WritingIsIdempotent(edges, Work(f, agent, order));
  }

  lemma ApplyLast(edges: seq<Edge>, actions: seq<Action>, a: Action)
    ensures ApplyAll(edges, actions + [a]) == Apply(ApplyAll(edges, actions), a)
  {
    assert (actions + [a])[..|actions|] == actions;
  }

  /** A build is one of the runs of the edge table. */
  lemma {:induction false} BuildIsARun(edges: seq<Edge>, work: seq<Request>)
    ensures WriteAll(edges, work) == ApplyAll(edges, Upserts(work))
  {
    if work != [] {
      var front, r := work[..|work| - 1], work[|work| - 1];
      BuildIsARun(edges, front);
      ApplyLast(edges, Upserts(front), Upsert(r, None));
    }
  }

  function Upserts(work: seq<Request>): seq<Action> {
    if work == [] then [] else Upserts(work[..|work| - 1]) + [Upsert(work[|work| - 1], None)]
  }

  // ----- The service -----

  datatype GraphError = NodeNotFound | DependencyInvalid | CrossTenantEndpoint | EdgeNotFound | EdgeAlreadyRevoked

  datatype Built = Built(created: nat, touched: map<EdgeType, nat>)

  class DependencyGraph {
    var edges: seq<Edge>

    constructor ()
      ensures edges == []
    {
      edges := [];
    }

    method UpsertEdge(r: Request, winner: Option<Request>) returns (at: nat)
      modifies this
      ensures edges == Write(old(edges), r, winner)
      ensures at < |edges| && Live(edges[at], r.key)
    {
      match Find(edges, r.key) {
        case Some(i) =>
          edges := edges[i := edges[i].(evidence := Merge(edges[i].evidence, r.evidence))];
          return i;
        case None =>
          var w := winner.GetOr(r);
          edges := edges + [Edge(r.key, w.provenance, w.evidence, false)];
          return |edges| - 1;
      }
    }

    /** The table and the counters after `work`, from the table the build started with. */
    ghost predicate Along(start: seq<Edge>, work: seq<Request>, built: Built)
      reads this
    {
      edges == WriteAll(start, work) && built.created == Creations(start, work) && built.touched == Touched(work)
    }

    /** One derived edge, and the counters of the build it belongs to. */
    method Derive(r: Request, built: Built, ghost start: seq<Edge>, ghost work: seq<Request>) returns (after: Built)
      requires Along(start, work, built)
      modifies this
      ensures Along(start, work + [r], after)
    {
      var isNew := Find(edges, r.key).None?;
      assert (work + [r])[..|work|] == work;
      var _ := UpsertEdge(r, None);
      var e := r.key.edge;
      var count := if e in built.touched then built.touched[e] else 0;
      after := Built(built.created + if isNew then 1 else 0, built.touched[e := count + 1]);
    }

    method DeriveCalls(f: Facts, agent: nat, built: Built, ghost start: seq<Edge>, ghost work: seq<Request>)
        returns (after: Built, tools: set<nat>)
      requires Along(start, work, built)
      modifies this
      ensures Along(start, work + CallWork(f, agent, f.calls), after)
      ensures forall t :: t in tools <==> Calls(f, t)
    {
      after, tools := built, {};
      assert work + CallWork(f, agent, []) == work;
      for i := 0 to |f.calls|
        invariant forall t :: t in tools <==> Resolves(f, ToolNode, t) && HasCall(f.calls[..i], t)
        invariant Along(start, work + CallWork(f, agent, f.calls[..i]), after)
      {
        var c := f.calls[i];
        CallWorkLast(f, agent, i, work);
        HasCallLast(f.calls, i);
        if Resolves(f, ToolNode, c.tool) {
          tools := tools + {c.tool};
          after := Derive(CallRequest(agent, c), after, start, work + CallWork(f, agent, f.calls[..i]));
        }
      }
      assert f.calls[..|f.calls|] == f.calls;
    }

    method DeriveAssignments(f: Facts, agent: nat, built: Built, called: set<nat>, ghost start: seq<Edge>,
                             ghost work: seq<Request>)
        returns (after: Built, tools: set<nat>)
      requires Along(start, work, built) && forall t :: t in called <==> Calls(f, t)
      modifies this
      ensures Along(start, work + AssignmentWork(f, agent, f.assignments), after)
      ensures forall t :: t in tools <==> Depends(f, t)
    {
      after, tools := built, called;
      assert work + AssignmentWork(f, agent, []) == work;
      for i := 0 to |f.assignments|
        invariant forall t :: t in tools <==>
            t in called || (Resolves(f, ToolNode, t) && exists a :: a in f.assignments[..i] && a.tool == t)
        invariant Along(start, work + AssignmentWork(f, agent, f.assignments[..i]), after)
      {
        var a := f.assignments[i];
        AssignmentWorkLast(f, agent, i, work);
        assert f.assignments[..i + 1] == f.assignments[..i] + [a];
        if Resolves(f, ToolNode, a.tool) {
          tools := tools + {a.tool};
          ghost var done := work + AssignmentWork(f, agent, f.assignments[..i]);
          after := Derive(AssignmentRequest(agent, a), after, start, done);
        }
      }
      assert f.assignments[..|f.assignments|] == f.assignments;
    }

    method DeriveTool(f: Facts, agent: nat, t: nat, built: Built, ghost start: seq<Edge>, ghost work: seq<Request>)
        returns (after: Built)
      requires Along(start, work, built)
      modifies this
      ensures Along(start, work + CredentialWork(t, f.credentials) + ServerWork(f, agent, t), after)
    {
      after := DeriveCredentials(f, t, built, start, work);
      ghost var done := work + CredentialWork(t, f.credentials);
      if t in f.servers && Resolves(f, McpServerNode, f.servers[t]) {
        var requests := ServerRequests(agent, t, f.servers[t]);
        after := Derive(requests[0], after, start, done);
        after := Derive(requests[1], after, start, done + [requests[0]]);
        assert done + [requests[0]] + [requests[1]] == done + ServerWork(f, agent, t);
      } else {
        assert done + [] == done;
      }
    }

    method DeriveCredentials(f: Facts, t: nat, built: Built, ghost start: seq<Edge>, ghost work: seq<Request>)
        returns (after: Built)
      requires Along(start, work, built)
      modifies this
      ensures Along(start, work + CredentialWork(t, f.credentials), after)
    {
      after := built;
      assert work + CredentialWork(t, []) == work;
      for i := 0 to |f.credentials|
        invariant Along(start, work + CredentialWork(t, f.credentials[..i]), after)
      {
        var c := f.credentials[i];
        CredentialWorkLast(f, t, i, work);
        if c.tool == t && c.active {
          after := Derive(CredentialRequest(t, c), after, start, work + CredentialWork(t, f.credentials[..i]));
        }
      }
      assert f.credentials[..|f.credentials|] == f.credentials;
    }

    method DeriveTools(f: Facts, agent: nat, tools: set<nat>, built: Built, ghost start: seq<Edge>,
                       ghost work: seq<Request>)
        returns (after: Built, ghost order: seq<nat>)
      requires Along(start, work, built)
      modifies this
      ensures Along(start, work + ToolWork(f, agent, order), after)
      ensures Distinct(order) && forall t :: t in order <==> t in tools
    {
      after, order := built, [];
      var left := tools;
      assert work + ToolWork(f, agent, []) == work;
      while left != {}
        invariant left <= tools
        invariant Distinct(order) && forall t :: t in order <==> t in tools && t !in left
        invariant Along(start, work + ToolWork(f, agent, order), after)
        decreases |left|
      {
        var t :| t in left;
        left := left - {t};
        after := DeriveTool(f, agent, t, after, start, work + ToolWork(f, agent, order));
        ToolWorkLast(f, agent, order, t, work);
        OneMoreTool(order, t);
        order := order + [t];
      }
    }

    /** Derives every edge the evidence requires; `order` is the order in which the tools came up. */
    method BuildForAgent(f: Facts, agent: nat) returns (r: Result<Built, GraphError>, ghost order: seq<nat>)
      modifies this
      ensures r.Err? <==> !Resolves(f, AgentNode, agent)
      ensures r.Err? ==> r.error == NodeNotFound && edges == old(edges)
      ensures r.Ok? ==>
                Enumerates(f, order) && Distinct(order) && Along(old(edges), Work(f, agent, order), r.value)
    {
      order := [];
      if !Resolves(f, AgentNode, agent) {
        return Err(NodeNotFound), order;
      }
      ghost var start := edges;
      var built, tools := DeriveCalls(f, agent, Built(0, map[]), start, []);
      ghost var work := CallWork(f, agent, f.calls);
      assert [] + work == work;
      built, tools := DeriveAssignments(f, agent, built, tools, start, work);
      work := work + AssignmentWork(f, agent, f.assignments);
      built, order := DeriveTools(f, agent, tools, built, start, work);
      work := work + ToolWork(f, agent, order);
      if f.published.Some? && f.published.value.credential.Some? {
        built := Derive(ProviderWork(f, agent)[0], built, start, work);
        assert work + [ProviderWork(f, agent)[0]] == Work(f, agent, order);
      } else {
        assert work + [] == work;
      }
      return Ok(built), order;
    }

    /** An operator's explicit edge. */
    method CreateDeclaredEdge(f: Facts, k: Key, evidence: map<Field, Value>, winner: Option<Request>)
        returns (r: Result<nat, GraphError>)
      modifies this
      ensures r.Ok? <==>
              && Shape(k.edge) == Some((k.sourceType, k.targetType))
              && !(k.sourceType == k.targetType && k.source == k.target)
              && Resolves(f, k.sourceType, k.source) && Resolves(f, k.targetType, k.target)
      ensures r.Ok? ==>
                && edges == Write(old(edges), Request(k, Explicit, Evidence(Declared, false, evidence)), winner)
                && r.value < |edges| && Live(edges[r.value], k)
      ensures r.Err? ==> edges == old(edges)
      ensures r.Err? ==> (r.error == CrossTenantEndpoint <==> Shape(k.edge) == Some((k.sourceType, k.targetType)))
      ensures r.Err? ==> r.error in {DependencyInvalid, CrossTenantEndpoint}
    {
      if Shape(k.edge) != Some((k.sourceType, k.targetType)) || (k.sourceType == k.targetType && k.source == k.target) {
        return Err(DependencyInvalid);
      }
      if !Resolves(f, k.sourceType, k.source) || !Resolves(f, k.targetType, k.target) {
        return Err(CrossTenantEndpoint);
      }
      var at := UpsertEdge(Request(k, Explicit, Evidence(Declared, false, evidence)), winner);
      return Ok(at);
    }

    method RevokeEdge(index: nat) returns (r: Result<(), GraphError>)
      modifies this
      ensures edges == Apply(old(edges), Revoke(index))
      ensures r.Ok? <==> Revocable(old(edges), index)
      ensures r.Err? ==> r.error == if index >= |old(edges)| then EdgeNotFound
                                    else if Shape(old(edges)[index].key.edge).None? then DependencyInvalid
                                    else EdgeAlreadyRevoked
    {
      if index >= |edges| {
        return Err(EdgeNotFound);
      }
      if Shape(edges[index].key.edge).None? {
        return Err(DependencyInvalid);
      }
      if edges[index].revoked {
        return Err(EdgeAlreadyRevoked);
      }
      edges := edges[index := edges[index].(revoked := true)];
      return Ok(());
    }
  }
}
