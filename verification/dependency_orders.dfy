/** What the order of the tools decides in a build (backend/app/graph/dependencies.py:233-290): they come out of a
    set, so two builds over the same evidence may visit them differently. */
module DependencyOrders {
  import opened Wrappers
  import opened DependencyEdges
  import opened DependencyBuild

  /** What the live edge of a key records. */
  function EvidenceOf(edges: seq<Edge>, k: Key): Option<Evidence> {
    match Find(edges, k)
    case Some(i) => Some(edges[i].evidence)
    case None => None
  }

  /** A key's evidence after further writes: the first one of an absent edge is taken as it is. */
  function Final(e: Option<Evidence>, more: seq<Evidence>): Option<Evidence> {
    if more == [] then e
    else match Final(e, more[..|more| - 1])
         case Some(before) => Some(Merge(before, more[|more| - 1]))
         case None => Some(more[|more| - 1])
  }

  /** Each key's evidence depends on its own requests alone. */
  lemma {:induction false} WriteAllEvidence(edges: seq<Edge>, work: seq<Request>, k: Key)
    requires OneLive(edges)
    ensures OneLive(WriteAll(edges, work))
    ensures EvidenceOf(WriteAll(edges, work), k) == Final(EvidenceOf(edges, k), For(work, k))
  {
    if work != [] {
      var front, r := work[..|work| - 1], work[|work| - 1];
      WriteAllEvidence(edges, front, k);
      OneStepOfEvidence(WriteAll(edges, front), Upsert(r, None), k);
      var own := For(front, k);
      assert own + [] == own && (own + [r.evidence])[..|own|] == own;
    }
  }

  lemma {:induction false} ForConcat(a: seq<Request>, b: seq<Request>, k: Key)
    ensures For(a + b, k) == For(a, k) + For(b, k)
  {
    if b == [] {
      assert a + b == a;
    } else {
      ForConcat(a, b[..|b| - 1], k);
      assert (a + b)[..|a + b| - 1] == a + b[..|b| - 1];
    }
  }

  lemma {:induction false} ForNothing(work: seq<Request>, k: Key)
    requires !Writes(work, k)
    ensures For(work, k) == []
  {
    if work != [] {
      assert work[|work| - 1] in work;
      assert forall r :: r in work[..|work| - 1] ==> r in work;
      ForNothing(work[..|work| - 1], k);
    }
  }

  lemma ForWork(f: Facts, agent: nat, order: seq<nat>, k: Key)
    ensures For(Work(f, agent, order), k)
            == For(CallWork(f, agent, f.calls), k) + For(AssignmentWork(f, agent, f.assignments), k)
               + For(ToolWork(f, agent, order), k) + For(ProviderWork(f, agent), k)
  {
    var a, b := CallWork(f, agent, f.calls), AssignmentWork(f, agent, f.assignments);
    var c, d := ToolWork(f, agent, order), ProviderWork(f, agent);
    ForConcat(a + b + c, d, k);
    ForConcat(a + b, c, k);
    ForConcat(a, b, k);
  }

  // ----- Keys of a single tool -----

  /** The tool that a key belongs to, for the two kinds of edges that one tool writes. */
  function Owner(k: Key): Option<nat> {
    match k.edge
    case ToolUsesCredential => Some(k.source)
    case McpExposesTool => Some(k.target)
    case _ => None
  }

  function OneTool(f: Facts, agent: nat, t: nat): seq<Request> {
    CredentialWork(t, f.credentials) + ServerWork(f, agent, t)
  }

  lemma OnlyTheOwnerWrites(f: Facts, agent: nat, t: nat, k: Key)
    requires k.edge != DependsOnMcpServer && Owner(k) != Some(t)
    ensures For(OneTool(f, agent, t), k) == []
  {
    forall r | r in OneTool(f, agent, t) ensures r.key != k {
      if r in CredentialWork(t, f.credentials) {
        CredentialWorkWrites(t, f.credentials, r);
      } else {
        var requests := ServerRequests(agent, t, f.servers[t]);
        assert r == requests[0] || r == requests[1];
      }
    }
    ForNothing(OneTool(f, agent, t), k);
  }

  lemma ForLastTool(f: Facts, agent: nat, order: seq<nat>, k: Key)
    requires order != []
    ensures For(ToolWork(f, agent, order), k)
            == For(ToolWork(f, agent, order[..|order| - 1]), k) + For(OneTool(f, agent, order[|order| - 1]), k)
  {
    var before, last := ToolWork(f, agent, order[..|order| - 1]), OneTool(f, agent, order[|order| - 1]);
    assert ToolWork(f, agent, order) == before + last;
    ForConcat(before, last, k);
  }

  /** What the tools of an order write for a key that has an owner: the owner's requests, if it comes up. */
  function Owned(f: Facts, agent: nat, order: seq<nat>, k: Key): seq<Evidence> {
    if Owner(k).Some? && Owner(k).value in order then For(OneTool(f, agent, Owner(k).value), k) else []
  }

  lemma {:induction false} ForToolWork(f: Facts, agent: nat, order: seq<nat>, k: Key)
    requires Distinct(order) && k.edge != DependsOnMcpServer
    ensures For(ToolWork(f, agent, order), k) == Owned(f, agent, order, k)
  {
    if order != [] {
      var front, t := order[..|order| - 1], order[|order| - 1];
      ForToolWork(f, agent, front, k);
      ForLastTool(f, agent, order, k);
      assert order == front + [t] && t !in front;
      if Owner(k) == Some(t) {
        assert Owned(f, agent, front, k) == [];
      } else {
        OnlyTheOwnerWrites(f, agent, t, k);
        assert Owned(f, agent, front, k) == Owned(f, agent, order, k);
      }
    }
  }

  // ----- Keys of a server -----

  /** The tools that the server serves, in the order they come up. */
  function Served(f: Facts, order: seq<nat>, m: nat): seq<nat> {
    if order == [] then []
    else
      var t := order[|order| - 1];
      Served(f, order[..|order| - 1], m) + if ServedBy(f, t, m) then [t] else []
  }

  function Via(agent: nat, m: nat, t: nat): Evidence {
    ServerRequests(agent, t, m)[0].evidence
  }

  function ViaEach(agent: nat, m: nat, tools: seq<nat>): seq<Evidence> {
    seq(|tools|, i requires 0 <= i < |tools| => Via(agent, m, tools[i]))
  }

  lemma {:induction false} ServedHas(f: Facts, order: seq<nat>, m: nat, t: nat)
    ensures t in Served(f, order, m) <==> t in order && ServedBy(f, t, m)
  {
    if order != [] {
      var front, u := order[..|order| - 1], order[|order| - 1];
      ServedHas(f, front, m, t);
      assert order == front + [u];
    }
  }

  lemma OneToolForServer(f: Facts, agent: nat, t: nat, m: nat)
    ensures For(OneTool(f, agent, t), ServerKey(agent, m)) == if ServedBy(f, t, m) then [Via(agent, m, t)] else []
  {
    var k := ServerKey(agent, m);
    ForConcat(CredentialWork(t, f.credentials), ServerWork(f, agent, t), k);
    forall r | r in CredentialWork(t, f.credentials) ensures r.key != k {
      CredentialWorkWrites(t, f.credentials, r);
    }
    ForNothing(CredentialWork(t, f.credentials), k);
    if t in f.servers && Resolves(f, McpServerNode, f.servers[t]) {
      var requests := ServerRequests(agent, t, f.servers[t]);
      assert requests[..1] == [requests[0]] && requests[..1][..0] == [];
      assert For(requests[..1][..0], k) == [];
      assert For(requests[..1], k) == if requests[0].key == k then [requests[0].evidence] else [];
      assert For(requests, k) == For(requests[..1], k) + [];
    }
  }

  lemma {:induction false} ForServer(f: Facts, agent: nat, order: seq<nat>, m: nat)
    ensures For(ToolWork(f, agent, order), ServerKey(agent, m)) == ViaEach(agent, m, Served(f, order, m))
  {
    if order != [] {
      var front, t := order[..|order| - 1], order[|order| - 1];
      ForServer(f, agent, front, m);
      ForLastTool(f, agent, order, ServerKey(agent, m));
      OneToolForServer(f, agent, t, m);
    }
  }

  /** Of several tools on one server, the last one to come up is the one recorded. */
  lemma MergeVias(e: Evidence, agent: nat, m: nat, t: nat, u: nat)
    ensures Merge(Merge(e, Via(agent, m, t)), Via(agent, m, u)) == Merge(e, Via(agent, m, u))
    ensures Merge(Via(agent, m, t), Via(agent, m, u)) == Via(agent, m, u)
  {
    var a, b := Via(agent, m, t).details, Via(agent, m, u).details;
    assert a.Keys == b.Keys == {Source, ViaTool};
    assert a + b == b;
    assert (e.details + a) + b == e.details + b;
  }

  function Latest(e: Option<Evidence>, agent: nat, m: nat, t: nat): Evidence {
    match e
    case Some(before) => Merge(before, Via(agent, m, t))
    case None => Via(agent, m, t)
  }

  lemma {:induction false} FinalVias(e: Option<Evidence>, agent: nat, m: nat, tools: seq<nat>)
    requires tools != []
    ensures Final(e, ViaEach(agent, m, tools)) == Some(Latest(e, agent, m, tools[|tools| - 1]))
  {
    var front, t, all := tools[..|tools| - 1], tools[|tools| - 1], ViaEach(agent, m, tools);
    assert all[..|all| - 1] == ViaEach(agent, m, front);
    if front != [] {
      FinalVias(e, agent, m, front);
      var u := front[|front| - 1];
      MergeVias(if e.Some? then e.value else Via(agent, m, u), agent, m, u, t);
    }
  }

  lemma LatestDiffers(e: Option<Evidence>, agent: nat, m: nat, t: nat, u: nat)
    ensures Latest(e, agent, m, t) == Latest(e, agent, m, u) <==> t == u
    ensures SameBut(Latest(e, agent, m, t), Latest(e, agent, m, u))
  {
    var a, b := Latest(e, agent, m, t), Latest(e, agent, m, u);
    assert a.details[ViaTool] == Number(t) && b.details[ViaTool] == Number(u);
  }

  /** Equal but for the tool that led to the server. */
  predicate SameBut(a: Evidence, b: Evidence) {
    a.mode == b.mode && a.alsoDeclared == b.alsoDeclared && a.details - {ViaTool} == b.details - {ViaTool}
  }

  // ----- Two orders -----

  lemma CallsSkipServers(f: Facts, agent: nat, m: nat)
    ensures For(CallWork(f, agent, f.calls), ServerKey(agent, m)) == []
  {
    forall r | r in CallWork(f, agent, f.calls) ensures r.key != ServerKey(agent, m) {
      CallWorkWrites(f, agent, f.calls, r);
    }
    ForNothing(CallWork(f, agent, f.calls), ServerKey(agent, m));
  }

  lemma AssignmentsSkipServers(f: Facts, agent: nat, m: nat)
    ensures For(AssignmentWork(f, agent, f.assignments), ServerKey(agent, m)) == []
  {
    forall r | r in AssignmentWork(f, agent, f.assignments) ensures r.key != ServerKey(agent, m) {
      AssignmentWorkWrites(f, agent, f.assignments, r);
    }
    ForNothing(AssignmentWork(f, agent, f.assignments), ServerKey(agent, m));
  }

  /** Only the tools write edges to servers. */
  lemma ForServerWork(f: Facts, agent: nat, order: seq<nat>, m: nat)
    ensures For(Work(f, agent, order), ServerKey(agent, m)) == ViaEach(agent, m, Served(f, order, m))
  {
    ForWork(f, agent, order, ServerKey(agent, m));
    CallsSkipServers(f, agent, m);
    AssignmentsSkipServers(f, agent, m);
    ForNothing(ProviderWork(f, agent), ServerKey(agent, m));
    ForServer(f, agent, order, m);
    assert [] + [] + ViaEach(agent, m, Served(f, order, m)) + [] == ViaEach(agent, m, Served(f, order, m));
  }

  lemma ServerEvidence(edges: seq<Edge>, f: Facts, agent: nat, order: seq<nat>, m: nat)
    requires OneLive(edges)
    ensures var tools, before := Served(f, order, m), EvidenceOf(edges, ServerKey(agent, m));
            EvidenceOf(WriteAll(edges, Work(f, agent, order)), ServerKey(agent, m))
            == if tools == [] then before else Some(Latest(before, agent, m, tools[|tools| - 1]))
  {
    WriteAllEvidence(edges, Work(f, agent, order), ServerKey(agent, m));
    ForServerWork(f, agent, order, m);
    if Served(f, order, m) != [] {
      FinalVias(EvidenceOf(edges, ServerKey(agent, m)), agent, m, Served(f, order, m));
    }
  }

  lemma SameRequests(f: Facts, agent: nat, order: seq<nat>, again: seq<nat>, k: Key)
    requires Enumerates(f, order) && Enumerates(f, again) && Distinct(order) && Distinct(again)
    requires k.edge != DependsOnMcpServer
    ensures For(Work(f, agent, order), k) == For(Work(f, agent, again), k)
  {
    ForWork(f, agent, order, k);
    ForWork(f, agent, again, k);
    ForToolWork(f, agent, order, k);
    ForToolWork(f, agent, again, k);
    assert Owned(f, agent, order, k) == Owned(f, agent, again, k);
  }

  lemma SameEvidence(edges: seq<Edge>, work: seq<Request>, again: seq<Request>, k: Key)
    requires OneLive(edges) && For(work, k) == For(again, k)
    ensures EvidenceOf(WriteAll(edges, work), k) == EvidenceOf(WriteAll(edges, again), k)
  {
    WriteAllEvidence(edges, work, k);
    WriteAllEvidence(edges, again, k);
  }

  /** The tool that the edge to a server names, if some tool leads there. */
  function LastServed(f: Facts, order: seq<nat>, m: nat): Option<nat> {
    var tools := Served(f, order, m);
    if tools == [] then None else Some(tools[|tools| - 1])
  }

  lemma ServedInBoth(f: Facts, order: seq<nat>, again: seq<nat>, m: nat)
    requires Enumerates(f, order) && Enumerates(f, again)
    ensures Served(f, order, m) == [] <==> Served(f, again, m) == []
  {
    forall t ensures t in Served(f, order, m) <==> t in Served(f, again, m) {
      ServedHas(f, order, m, t);
      ServedHas(f, again, m, t);
    }
    assert Served(f, order, m) != [] ==> Served(f, order, m)[0] in Served(f, again, m);
    assert Served(f, again, m) != [] ==> Served(f, again, m)[0] in Served(f, order, m);
  }

  lemma ServerEvidenceIff(edges: seq<Edge>, f: Facts, agent: nat, order: seq<nat>, again: seq<nat>, m: nat)
    requires OneLive(edges) && Enumerates(f, order) && Enumerates(f, again)
    ensures var a := EvidenceOf(WriteAll(edges, Work(f, agent, order)), ServerKey(agent, m));
            var b := EvidenceOf(WriteAll(edges, Work(f, agent, again)), ServerKey(agent, m));
            Alike(a, b) && (a == b <==> LastServed(f, order, m) == LastServed(f, again, m))
  {
    ServerEvidence(edges, f, agent, order, m);
    ServerEvidence(edges, f, agent, again, m);
    ServedInBoth(f, order, again, m);
    if Served(f, order, m) != [] {
      LatestDiffers(EvidenceOf(edges, ServerKey(agent, m)), agent, m,
                    LastServed(f, order, m).value, LastServed(f, again, m).value);
    }
  }

  lemma UnwrittenEvidence(edges: seq<Edge>, f: Facts, agent: nat, order: seq<nat>, again: seq<nat>, k: Key)
    requires OneLive(edges) && Enumerates(f, order) && Enumerates(f, again) && !Required(f, agent, k)
    ensures EvidenceOf(WriteAll(edges, Work(f, agent, order)), k)
            == EvidenceOf(WriteAll(edges, Work(f, agent, again)), k)
  {
    BuildWritesRequired(f, agent, order, k);
    BuildWritesRequired(f, agent, again, k);
    ForNothing(Work(f, agent, order), k);
    ForNothing(Work(f, agent, again), k);
    SameEvidence(edges, Work(f, agent, order), Work(f, agent, again), k);
  }

  ghost predicate Alike(a: Option<Evidence>, b: Option<Evidence>) {
    a.Some? == b.Some? && (a.Some? ==> SameBut(a.value, b.value))
  }

  /** Whatever was there before, two orders of the same tools leave the same edges with the same evidence, except that
      the agent's edge to a server names the tool on it that came up last: it is the same exactly when that tool is. */
  lemma OrdersAgreeIff(edges: seq<Edge>, f: Facts, agent: nat, order: seq<nat>, again: seq<nat>, k: Key)
    requires OneLive(edges) && Enumerates(f, order) && Enumerates(f, again) && Distinct(order) && Distinct(again)
    ensures var a := EvidenceOf(WriteAll(edges, Work(f, agent, order)), k);
            var b := EvidenceOf(WriteAll(edges, Work(f, agent, again)), k);
            && Alike(a, b)
            && (a == b <==> (k == ServerKey(agent, k.target) ==>
                               LastServed(f, order, k.target) == LastServed(f, again, k.target)))
  {
    if k == ServerKey(agent, k.target) {
      ServerEvidenceIff(edges, f, agent, order, again, k.target);
    } else if k.edge == DependsOnMcpServer {
      UnwrittenEvidence(edges, f, agent, order, again, k);
    } else {
      SameRequests(f, agent, order, again, k);
      SameEvidence(edges, Work(f, agent, order), Work(f, agent, again), k);
    }
  }

  // ----- What a build records of a call -----

  ghost predicate OneRowATool(calls: seq<Call>) {
    forall i, j :: 0 <= i < j < |calls| ==> calls[i].tool != calls[j].tool
  }

  lemma {:induction false} ForCall(f: Facts, agent: nat, calls: seq<Call>, c: Call)
    requires OneRowATool(calls) && c in calls && Resolves(f, ToolNode, c.tool)
    ensures For(CallWork(f, agent, calls), ToolKey(agent, c.tool)) == [CallRequest(agent, c).evidence]
  {
    var front, last, k := calls[..|calls| - 1], calls[|calls| - 1], ToolKey(agent, c.tool);
    var own := if Resolves(f, ToolNode, last.tool) then [CallRequest(agent, last)] else [];
    ForConcat(CallWork(f, agent, front), own, k);
    assert own != [] ==> own[..0] == [];
    if last == c {
      forall r | r in CallWork(f, agent, front) ensures r.key != k { CallWorkWrites(f, agent, front, r); }
      ForNothing(CallWork(f, agent, front), k);
    } else {
      assert calls == front + [last];
      ForCall(f, agent, front, c);
    }
  }

  lemma {:induction false} FinalConcat(e: Option<Evidence>, a: seq<Evidence>, b: seq<Evidence>)
    ensures Final(e, a + b) == Final(Final(e, a), b)
  {
    if b == [] {
      assert a + b == a;
    } else {
      FinalConcat(e, a, b[..|b| - 1]);
      assert (a + b)[..|a + b| - 1] == a + b[..|b| - 1];
    }
  }

  lemma {:induction false} FinalKeeps(e: Evidence, more: seq<Evidence>, x: Field)
    requires e.mode == Observed && x in e.details && forall m :: m in more ==> x !in m.details
    ensures var last := Final(Some(e), more);
            && last.Some? && last.value.mode == Observed
            && x in last.value.details && last.value.details[x] == e.details[x]
  {
    if more != [] {
      assert more[|more| - 1] in more;
      FinalKeeps(e, more[..|more| - 1], x);
    }
  }

  lemma ForToolKey(f: Facts, agent: nat, order: seq<nat>, c: Call)
    requires Distinct(order) && OneRowATool(f.calls) && c in f.calls && Resolves(f, ToolNode, c.tool)
    ensures For(Work(f, agent, order), ToolKey(agent, c.tool))
            == [CallRequest(agent, c).evidence] + For(AssignmentWork(f, agent, f.assignments), ToolKey(agent, c.tool))
  {
    var k := ToolKey(agent, c.tool);
    ForWork(f, agent, order, k);
    ForCall(f, agent, f.calls, c);
    ForToolWork(f, agent, order, k);
    ForNothing(ProviderWork(f, agent), k);
  }

  /** After a build the edge to a called tool is OBSERVED and carries the figures of that call, whatever was recorded
      before and whatever assignments say. */
  lemma CallIsRecorded(edges: seq<Edge>, f: Facts, agent: nat, order: seq<nat>, c: Call, x: Field)
    requires OneLive(edges) && Distinct(order) && OneRowATool(f.calls) && c in f.calls && Resolves(f, ToolNode, c.tool)
    requires x in {CallCount, SampleCall, LastSeen}
    ensures var k := Key(AgentNode, agent, DependsOnTool, ToolNode, c.tool);
            var e := EvidenceOf(WriteAll(edges, Work(f, agent, order)), k);
            && e.Some? && e.value.mode == Observed && x in e.value.details
            && e.value.details[x] == match x
                                     case CallCount => Number(c.count)
                                     case SampleCall => c.sample
                                     case _ => c.lastSeen
  {
    var k, first := ToolKey(agent, c.tool), CallRequest(agent, c).evidence;
    var was, rest := EvidenceOf(edges, k), For(AssignmentWork(f, agent, f.assignments), k);
    WriteAllEvidence(edges, Work(f, agent, order), k);
    ForToolKey(f, agent, order, c);
    FinalFirst(was, first, rest);
    forall m | m in rest ensures x !in m.details {
      AssignmentEvidence(f, agent, k, m);
    }
    FinalKeeps(FirstMerged(was, first), rest, x);
  }

  function FirstMerged(was: Option<Evidence>, first: Evidence): Evidence {
    match was
    case Some(e) => Merge(e, first)
    case None => first
  }

  lemma FinalFirst(was: Option<Evidence>, first: Evidence, rest: seq<Evidence>)
    ensures Final(was, [first] + rest) == Final(Some(FirstMerged(was, first)), rest)
  {
    FinalConcat(was, [first], rest);
    assert [first][..0] == [];
  }

  lemma AssignmentEvidence(f: Facts, agent: nat, k: Key, m: Evidence)
    requires m in For(AssignmentWork(f, agent, f.assignments), k)
    ensures m.details.Keys == {Source, AssignmentStatus}
  {
    var work := AssignmentWork(f, agent, f.assignments);
    ForMembers(work, k, m);
    var i :| 0 <= i < |work| && work[i].key == k && work[i].evidence == m;
    assert work[i] in work;
    AssignmentWorkWrites(f, agent, f.assignments, work[i]);
  }
}
