/** Deriving agents from observations (backend/app/discovery/reconciliation.py:54-195). One organization; the
    agent table is a sequence of rows that are never removed. */
module Reconciliation {
  import opened Wrappers

  type SourceId = nat

  /** An external identifier; only equality of two of them matters. */
  type Reference = nat

  const THRESHOLD := 0.75

  datatype Origin = Native | External | UnknownOrigin

  datatype Control = DiscoveredState | Claimed | Registered | Governed

  datatype Lifecycle =
    | Draft | Validating | Validated | Approved | Active | Suspended | Deprecated | Archived | Retired

  datatype Agent = Agent(
    reference: Option<Reference>, origin: Origin, owner: Option<nat>, control: Control, lifecycle: Lifecycle,
    source: Option<SourceId>, firstObserved: Option<Time>, lastObserved: Option<Time>, confidence: Option<real>)

  datatype Observation = Observation(reference: Reference, confidence: real, at: Time)

  datatype Outcome = Created | Linked | Flagged

  datatype Step = Step(agents: seq<Agent>, outcome: Outcome)

  predicate Absent(agents: seq<Agent>, reference: Reference) {
    forall i :: 0 <= i < |agents| ==> agents[i].reference != Some(reference)
  }

  predicate FirstBearer(agents: seq<Agent>, reference: Reference, i: nat) {
    i < |agents| && agents[i].reference == Some(reference) && Absent(agents[..i], reference)
  }

  lemma {:induction false} SomeFirstBearer(agents: seq<Agent>, reference: Reference, n: nat)
    requires n <= |agents| && !Absent(agents[..n], reference)
    ensures exists i :: 0 <= i < |agents| && FirstBearer(agents, reference, i)
  {
    if Absent(agents[..n - 1], reference) {
      assert forall i :: 0 <= i < n - 1 ==> agents[..n][i] == agents[..n - 1][i];
      assert FirstBearer(agents, reference, n - 1);
    } else {
      SomeFirstBearer(agents, reference, n - 1);
    }
  }

  lemma OneFirstBearer(agents: seq<Agent>, reference: Reference)
    ensures forall i: nat, j: nat ::
              FirstBearer(agents, reference, i) && FirstBearer(agents, reference, j) ==> i == j
  {
  }

  /** The first agent with this external reference, in the source's organization. */
  function Holder(agents: seq<Agent>, reference: Reference): (at: Option<nat>)
    ensures at.Some? ==> at.value < |agents| && agents[at.value].reference == Some(reference)
    ensures at.None? <==> Absent(agents, reference)
  {
    if Absent(agents, reference) then None
    else
      assert agents[..|agents|] == agents;
      SomeFirstBearer(agents, reference, |agents|);
      OneFirstBearer(agents, reference);
      var i :| 0 <= i < |agents| && FirstBearer(agents, reference, i);
      Some(i)
  }

  function NewAgent(source: SourceId, obs: Observation): Agent {
    Agent(Some(obs.reference), External, None, DiscoveredState, Draft,
          Some(source), Some(obs.at), Some(obs.at), Some(obs.confidence))
  }

  function Link(a: Agent, source: SourceId, obs: Observation): Agent {
    a.(lastObserved := Some(obs.at), firstObserved := Some(a.firstObserved.GetOr(obs.at)),
       confidence := Some(obs.confidence), source := Some(source))
  }

  /** What happens around one create. `rival` is an agent that another writer commits after the lookup; `refused`
      says that the create cannot succeed whatever its reference: its slug was taken meanwhile, or the agent
      service rejects it. */
  datatype Race = Race(rival: Option<Agent>, refused: bool)

  const NO_RACE := Race(None, false)

  predicate Bears(rival: Option<Agent>, reference: Reference) {
    rival.Some? && rival.value.reference == Some(reference)
  }

  /** The table once the other writer has committed; the unique reference keeps a second bearer out. */
  function Joined(agents: seq<Agent>, rival: Option<Agent>): seq<Agent> {
    if rival.Some? && (rival.value.reference.Some? ==> Holder(agents, rival.value.reference.value).None?)
    then agents + [rival.value] else agents
  }

  /** `found` is what the lookup returned, `table` the agents at the time of the create: only the lookup's own
      answer is checked for being native. */
  function Decide(table: seq<Agent>, found: Option<nat>, source: SourceId, obs: Observation, refused: bool): Step
    requires found.Some? ==> found.value < |table|
  {
    var bearer := if found.Some? then found else Holder(table, obs.reference);
    if obs.confidence < THRESHOLD || (found.Some? && table[found.value].origin == Native) then Step(table, Flagged)
    else if bearer.Some? then Step(table[bearer.value := Link(table[bearer.value], source, obs)], Linked)
    else if refused then Step(table, Flagged)
    else Step(table + [NewAgent(source, obs)], Created)
  }

  function Reconcile(agents: seq<Agent>, source: SourceId, obs: Observation, race: Race): Step {
    Decide(Joined(agents, race.rival), Holder(agents, obs.reference), source, obs, race.refused)
  }

  // ----- Batches -----

  datatype Sighting = Sighting(obs: Observation, race: Race)

  datatype Tally = Tally(created: nat, linked: nat, flagged: nat)

  function Count(t: Tally, o: Outcome): Tally {
    match o
    case Created => t.(created := t.created + 1)
    case Linked => t.(linked := t.linked + 1)
    case Flagged => t.(flagged := t.flagged + 1)
  }

  function StepOf(agents: seq<Agent>, source: SourceId, s: Sighting): Step {
    Reconcile(agents, source, s.obs, s.race)
  }

  function Batch(agents: seq<Agent>, source: SourceId, batch: seq<Sighting>): seq<Agent> {
    if batch == [] then agents
    else StepOf(Batch(agents, source, batch[..|batch| - 1]), source, batch[|batch| - 1]).agents
  }

  function BatchTally(agents: seq<Agent>, source: SourceId, batch: seq<Sighting>): Tally {
    if batch == [] then Tally(0, 0, 0)
    else
      var front := batch[..|batch| - 1];
      Count(BatchTally(agents, source, front), StepOf(Batch(agents, source, front), source, batch[|batch| - 1]).outcome)
  }

  ghost predicate UniqueReferences(agents: seq<Agent>) {
    forall i, j :: 0 <= i < j < |agents| && agents[i].reference.Some? ==> agents[i].reference != agents[j].reference
  }

  /** Ownership, control state, lifecycle, origin and reference: what reconciliation may never change. */
  predicate SameAuthority(a: Agent, b: Agent) {
    && a.owner == b.owner && a.control == b.control && a.lifecycle == b.lifecycle
    && a.origin == b.origin && a.reference == b.reference
  }

  ghost predicate AuthorityKept(before: seq<Agent>, after: seq<Agent>) {
    && |before| <= |after|
    && forall i :: 0 <= i < |before| ==>
         SameAuthority(before[i], after[i]) && (before[i].origin == Native ==> after[i] == before[i])
  }

  /** What a step does to the rows: an existing agent is kept or, unless native, linked; a rival is kept or linked;
      one agent may be new, and then nobody bore its reference. */
  ghost predicate Moves(agents: seq<Agent>, table: seq<Agent>, source: SourceId, obs: Observation, after: seq<Agent>) {
    && |agents| <= |table| <= |after| <= |table| + 1 && table[..|agents|] == agents
    && (forall i :: 0 <= i < |table| ==>
          || after[i] == table[i]
          || (after[i] == Link(table[i], source, obs) && (i < |agents| ==> table[i].origin != Native)))
    && (|after| > |table| ==> after[|table|] == NewAgent(source, obs) && Absent(table, obs.reference))
  }

  lemma DecideMoves(agents: seq<Agent>, table: seq<Agent>, found: Option<nat>, source: SourceId, obs: Observation,
                    refused: bool)
    requires |agents| <= |table| && table[..|agents|] == agents
    requires found.Some? ==> found.value < |agents|
    requires found.None? ==> Absent(agents, obs.reference)
    ensures var step := Decide(table, found, source, obs, refused);
            && Moves(agents, table, source, obs, step.agents)
            && (|step.agents| > |table| <==> step.outcome == Created)
  {
    assert forall i :: 0 <= i < |agents| ==> table[..|agents|][i] == table[i];
  }

  lemma StepMoves(agents: seq<Agent>, source: SourceId, s: Sighting)
    ensures var step, table := StepOf(agents, source, s), Joined(agents, s.race.rival);
            && Moves(agents, table, source, s.obs, step.agents)
            && (|step.agents| > |table| <==> step.outcome == Created)
  {
    DecideMoves(agents, Joined(agents, s.race.rival), Holder(agents, s.obs.reference), source, s.obs, s.race.refused);
  }

  lemma JoinedUnique(agents: seq<Agent>, rival: Option<Agent>)
    requires UniqueReferences(agents)
    ensures UniqueReferences(Joined(agents, rival))
  {
  }

  lemma MovesKeepAuthority(agents: seq<Agent>, table: seq<Agent>, source: SourceId, obs: Observation, after: seq<Agent>)
    requires Moves(agents, table, source, obs, after) && UniqueReferences(table)
    ensures UniqueReferences(after) && AuthorityKept(agents, after)
  {
    assert forall i :: 0 <= i < |agents| ==> table[..|agents|][i] == table[i];
    assert forall i :: 0 <= i < |table| ==> after[i].reference == table[i].reference;
  }

  lemma StepKeepsAuthority(agents: seq<Agent>, source: SourceId, s: Sighting)
    requires UniqueReferences(agents)
    ensures UniqueReferences(StepOf(agents, source, s).agents)
    ensures AuthorityKept(agents, StepOf(agents, source, s).agents)
  {
    StepMoves(agents, source, s);
    JoinedUnique(agents, s.race.rival);
    MovesKeepAuthority(agents, Joined(agents, s.race.rival), source, s.obs, StepOf(agents, source, s).agents);
  }

  /** At most one agent per reference, and no existing agent's authority (nor any native agent) is touched. */
  lemma {:induction false} BatchKeepsAuthority(agents: seq<Agent>, source: SourceId, batch: seq<Sighting>)
    requires UniqueReferences(agents)
    ensures UniqueReferences(Batch(agents, source, batch))
    ensures AuthorityKept(agents, Batch(agents, source, batch))
  {
    if batch != [] {
      var front := batch[..|batch| - 1];
      BatchKeepsAuthority(agents, source, front);
      StepKeepsAuthority(Batch(agents, source, front), source, batch[|batch| - 1]);
    }
  }

  predicate Unclaimed(a: Agent) {
    a.owner.None? && a.control == DiscoveredState && a.lifecycle == Draft && a.origin == External
  }

  ghost predicate FromRival(batch: seq<Sighting>, a: Agent) {
    exists b :: b in batch && b.race.rival.Some? && SameAuthority(b.race.rival.value, a)
  }

  lemma OneNewcomer(agents: seq<Agent>, table: seq<Agent>, rival: Option<Agent>, source: SourceId, obs: Observation,
                    after: seq<Agent>, i: nat)
    requires table == agents || (rival.Some? && table == agents + [rival.value])
    requires i < |after| && Moves(agents, table, source, obs, after)
    ensures if i < |agents| then SameAuthority(agents[i], after[i])
            else Unclaimed(after[i]) || (rival.Some? && SameAuthority(rival.value, after[i]))
  {
  }

  /** Agents that a batch adds are unowned DISCOVERED drafts, unless another writer created them. */
  lemma {:induction false} NewcomersAreUnclaimed(agents: seq<Agent>, source: SourceId, batch: seq<Sighting>, i: nat)
    requires |agents| <= i < |Batch(agents, source, batch)|
    ensures Unclaimed(Batch(agents, source, batch)[i]) || FromRival(batch, Batch(agents, source, batch)[i])
  {
    if batch != [] {
      var front, last := batch[..|batch| - 1], batch[|batch| - 1];
      assert last in batch && forall b :: b in front ==> b in batch;
      var before := Batch(agents, source, front);
      StepMoves(before, source, last);
      OneNewcomer(before, Joined(before, last.race.rival), last.race.rival, source, last.obs,
                  StepOf(before, source, last).agents, i);
      if i < |Batch(agents, source, front)| {
        NewcomersAreUnclaimed(agents, source, front, i);
      }
    }
  }

  /** An agent that names a source was observed by it. */
  ghost predicate SourcedAreObserved(agents: seq<Agent>) {
    forall i :: 0 <= i < |agents| ==> WellSourced(agents[i])
  }

  predicate WellSourced(a: Agent) {
    a.source.Some? ==> a.lastObserved.Some?
  }

  lemma MovesKeepObserved(agents: seq<Agent>, table: seq<Agent>, source: SourceId, obs: Observation, after: seq<Agent>)
    requires Moves(agents, table, source, obs, after) && SourcedAreObserved(table)
    ensures SourcedAreObserved(after)
  {
  }

  /** No writer records a source without an observation, so a batch never leaves an agent that would be linked to a
      source without one, provided the other writers do not. */
  lemma {:induction false} BatchKeepsObserved(agents: seq<Agent>, source: SourceId, batch: seq<Sighting>)
    requires SourcedAreObserved(agents)
    requires forall b :: b in batch && b.race.rival.Some? ==> WellSourced(b.race.rival.value)
    ensures SourcedAreObserved(Batch(agents, source, batch))
  {
    if batch != [] {
      var front, last := batch[..|batch| - 1], batch[|batch| - 1];
      assert last in batch && forall b :: b in front ==> b in batch;
      BatchKeepsObserved(agents, source, front);
      var before := Batch(agents, source, front);
      StepMoves(before, source, last);
      MovesKeepObserved(before, Joined(before, last.race.rival), source, last.obs, StepOf(before, source, last).agents);
    }
  }

  /** The agent shows the sighting; when it was first seen is kept once known. */
  predicate Shows(a: Agent, source: SourceId, obs: Observation, before: Option<Agent>) {
    && a.reference == Some(obs.reference) && a.source == Some(source)
    && a.lastObserved == Some(obs.at) && a.confidence == Some(obs.confidence) && a.firstObserved.Some?
    && (before.Some? && before.value.firstObserved.Some? ==> a.firstObserved == before.value.firstObserved)
  }

  function HolderOf(agents: seq<Agent>, reference: Reference): Option<Agent> {
    var at := Holder(agents, reference);
    if at.Some? then Some(agents[at.value]) else None
  }

  /** The guards of the source: confident enough, not found to be native, and an agent to record it on. */
  predicate Recordable(agents: seq<Agent>, obs: Observation, race: Race) {
    && obs.confidence >= 0.75
    && match HolderOf(agents, obs.reference)
       case Some(a) => a.origin != Native
       case None => !race.refused || Bears(race.rival, obs.reference)
  }

  /** A sighting is flagged exactly when those guards fail, and then no agent changes; otherwise it is recorded on
      the agent that bears its reference. */
  lemma SightingRecordedIff(agents: seq<Agent>, source: SourceId, obs: Observation, race: Race)
    requires UniqueReferences(agents)
    ensures var step, was := Reconcile(agents, source, obs, race), HolderOf(agents, obs.reference);
            && (step.outcome == Flagged <==> !Recordable(agents, obs, race))
            && (if Recordable(agents, obs, race)
                then exists i :: 0 <= i < |step.agents| && Shows(step.agents[i], source, obs, was)
                else step.agents == Joined(agents, race.rival))
  {
    var step, was := Reconcile(agents, source, obs, race), Holder(agents, obs.reference);
    var table := Joined(agents, race.rival);
    JoinedHeldIff(agents, race.rival, obs.reference);
    if step.outcome != Flagged {
      var held := Holder(table, obs.reference);
      var i := if was.Some? then was.value else if held.Some? then held.value else |table|;
      assert Shows(step.agents[i], source, obs, HolderOf(agents, obs.reference));
    }
  }

  /** What a create adds: an external, unowned draft, first and last seen in this sighting. */
  lemma CreatedAgent(agents: seq<Agent>, source: SourceId, obs: Observation, race: Race)
    requires Reconcile(agents, source, obs, race).outcome == Created
    ensures Reconcile(agents, source, obs, race).agents
            == Joined(agents, race.rival)
               + [Agent(Some(obs.reference), External, None, DiscoveredState, Draft, Some(source), Some(obs.at),
                        Some(obs.at), Some(obs.confidence))]
  {
  }

  // ----- Who holds a reference after a batch -----

  predicate Held(agents: seq<Agent>, reference: Reference) {
    Holder(agents, reference).Some?
  }

  lemma HeldBy(agents: seq<Agent>, i: nat, reference: Reference)
    requires i < |agents| && agents[i].reference == Some(reference)
    ensures Held(agents, reference)
  {
  }

  /** A sighting leaves a bearer of the reference behind: another writer's, or the agent it creates itself. */
  predicate Brings(s: Sighting, reference: Reference) {
    || Bears(s.race.rival, reference)
    || (s.obs.reference == reference && s.obs.confidence >= THRESHOLD && !s.race.refused)
  }

  lemma JoinedHeldIff(agents: seq<Agent>, rival: Option<Agent>, reference: Reference)
    ensures Held(Joined(agents, rival), reference) <==> Held(agents, reference) || Bears(rival, reference)
  {
    var table := Joined(agents, rival);
    if Held(agents, reference) {
      HeldBy(table, Holder(agents, reference).value, reference);
    } else if Bears(rival, reference) {
      HeldBy(table, |agents|, reference);
    }
  }

  lemma StepHeldIff(agents: seq<Agent>, source: SourceId, s: Sighting, reference: Reference)
    ensures Held(StepOf(agents, source, s).agents, reference) <==> Held(agents, reference) || Brings(s, reference)
  {
    var table, after := Joined(agents, s.race.rival), StepOf(agents, source, s).agents;
    JoinedHeldIff(agents, s.race.rival, reference);
    JoinedHeldIff(agents, s.race.rival, s.obs.reference);
    if Held(table, reference) {
      HeldBy(after, Holder(table, reference).value, reference);
    } else if |after| > |table| && s.obs.reference == reference {
      HeldBy(after, |table|, reference);
    }
    if Held(after, reference) && !Held(table, reference) {
      var i := Holder(after, reference).value;
      if i < |table| { HeldBy(table, i, reference); }
    }
  }

  ghost predicate BroughtBy(batch: seq<Sighting>, reference: Reference) {
    exists b :: b in batch && Brings(b, reference)
  }

  lemma BroughtLast(batch: seq<Sighting>, reference: Reference)
    requires batch != []
    ensures BroughtBy(batch, reference) <==>
            BroughtBy(batch[..|batch| - 1], reference) || Brings(batch[|batch| - 1], reference)
  {
    assert batch == batch[..|batch| - 1] + [batch[|batch| - 1]];
  }

  /** A reference has its agent after a batch iff it had one before or some sighting brought it. */
  lemma {:induction false} HeldAfterIff(agents: seq<Agent>, source: SourceId, batch: seq<Sighting>,
                                        reference: Reference)
    ensures Held(Batch(agents, source, batch), reference) <==> Held(agents, reference) || BroughtBy(batch, reference)
  {
    if batch != [] {
      var front, last := batch[..|batch| - 1], batch[|batch| - 1];
      HeldAfterIff(agents, source, front, reference);
      StepHeldIff(Batch(agents, source, front), source, last, reference);
      BroughtLast(batch, reference);
    }
  }

  function Rivals(batch: seq<Sighting>): nat {
    if batch == [] then 0
    else Rivals(batch[..|batch| - 1]) + if batch[|batch| - 1].race.rival.Some? then 1 else 0
  }

  lemma StepGrows(agents: seq<Agent>, source: SourceId, s: Sighting)
    ensures var step := StepOf(agents, source, s);
            var created := if step.outcome == Created then 1 else 0;
            |agents| + created <= |step.agents| <= |agents| + created + if s.race.rival.Some? then 1 else 0
  {
    StepMoves(agents, source, s);
    JoinedGrows(agents, s.race.rival);
  }

  lemma JoinedGrows(agents: seq<Agent>, rival: Option<Agent>)
    ensures |agents| <= |Joined(agents, rival)| <= |agents| + if rival.Some? then 1 else 0
  {
  }

  /** Every observation has one outcome, and agents appear only by creation or from another writer. */
  lemma {:induction false} TallyAddsUp(agents: seq<Agent>, source: SourceId, batch: seq<Sighting>)
    ensures var t := BatchTally(agents, source, batch);
            && t.created + t.linked + t.flagged == |batch|
            && |agents| + t.created <= |Batch(agents, source, batch)| <= |agents| + t.created + Rivals(batch)
  {
    if batch != [] {
      var front := batch[..|batch| - 1];
      TallyAddsUp(agents, source, front);
      StepGrows(Batch(agents, source, front), source, batch[|batch| - 1]);
    }
  }

  // ----- Replays -----

  /** The sighting would create an agent if nobody bore its reference. */
  predicate Willing(s: Sighting) {
    s.obs.confidence >= THRESHOLD && !s.race.refused
  }

  /** Another writer has committed a bearer of the reference by sighting `j`. */
  ghost predicate RivalBy(batch: seq<Sighting>, j: nat, reference: Reference) {
    exists m :: 0 <= m <= j && m < |batch| && Bears(batch[m].race.rival, reference)
  }

  ghost predicate NothingToCreate(agents: seq<Agent>, batch: seq<Sighting>) {
    forall j :: 0 <= j < |batch| && Willing(batch[j]) ==>
      Held(agents, batch[j].obs.reference) || RivalBy(batch, j, batch[j].obs.reference)
  }

  lemma CreatesIff(agents: seq<Agent>, source: SourceId, s: Sighting)
    ensures StepOf(agents, source, s).outcome == Created <==>
            Willing(s) && !Held(agents, s.obs.reference) && !Bears(s.race.rival, s.obs.reference)
  {
    JoinedHeldIff(agents, s.race.rival, s.obs.reference);
  }

  lemma LastToCreate(agents: seq<Agent>, front: seq<Sighting>, last: Sighting)
    ensures NothingToCreate(agents, front + [last]) <==>
            NothingToCreate(agents, front)
            && (Willing(last) ==>
                  Held(agents, last.obs.reference) || RivalBy(front + [last], |front|, last.obs.reference))
  {
    var batch := front + [last];
    forall j | 0 <= j < |front|
      ensures RivalBy(batch, j, batch[j].obs.reference) <==> RivalBy(front, j, front[j].obs.reference)
    {
      assert forall m :: 0 <= m <= j ==> batch[m] == front[m];
    }
    if NothingToCreate(agents, batch) {
      forall j | 0 <= j < |front| && Willing(front[j])
        ensures Held(agents, front[j].obs.reference) || RivalBy(front, j, front[j].obs.reference)
      {
        assert batch[j] == front[j];
      }
      assert batch[|front|] == last;
    }
  }

  /** While nothing was created, only other writers have brought a reference. */
  lemma OnlyRivalsBring(agents: seq<Agent>, front: seq<Sighting>, last: Sighting, reference: Reference)
    requires NothingToCreate(agents, front)
    ensures Held(agents, reference) || BroughtBy(front, reference) || Bears(last.race.rival, reference) <==>
            Held(agents, reference) || RivalBy(front + [last], |front|, reference)
  {
    var batch := front + [last];
    if BroughtBy(front, reference) && !Held(agents, reference) {
      var b :| b in front && Brings(b, reference);
      var j :| 0 <= j < |front| && front[j] == b;
      if !Bears(b.race.rival, reference) {
        assert Willing(front[j]) && RivalBy(front, j, reference);
      } else {
        assert Bears(front[j].race.rival, reference) && RivalBy(front, j, reference);
      }
      var m :| 0 <= m <= j && Bears(front[m].race.rival, reference);
      assert batch[m] == front[m];
    }
    if Bears(last.race.rival, reference) {
      assert batch[|front|] == last;
    }
    if RivalBy(batch, |front|, reference) && !Bears(last.race.rival, reference) {
      var m :| 0 <= m <= |front| && Bears(batch[m].race.rival, reference);
      assert batch[m] == front[m] && front[m] in front && Brings(front[m], reference);
    }
  }

  /** A batch creates nothing exactly when each sighting that would create finds its reference in the table it
      started from, or brought by another writer in the meantime. */
  lemma {:induction false} CreatesNothingIff(agents: seq<Agent>, source: SourceId, batch: seq<Sighting>)
    ensures BatchTally(agents, source, batch).created == 0 <==> NothingToCreate(agents, batch)
  {
    if batch != [] {
      var front, last := batch[..|batch| - 1], batch[|batch| - 1];
      assert batch == front + [last];
      CreatesNothingIff(agents, source, front);
      LastToCreate(agents, front, last);
      CreatesIff(Batch(agents, source, front), source, last);
      HeldAfterIff(agents, source, front, last.obs.reference);
      if NothingToCreate(agents, front) {
        OnlyRivalsBring(agents, front, last, last.obs.reference);
      }
    }
  }

  predicate Undisturbed(batch: seq<Sighting>) {
    forall b :: b in batch ==> b.race == NO_RACE
  }

  /** Replaying, in any order and undisturbed, creates nothing exactly when every confident reference had its agent
      before the first pass or was brought by it. */
  lemma ReplayCreatesNothingIff(agents: seq<Agent>, source: SourceId, batch: seq<Sighting>, replay: seq<Sighting>)
    requires Undisturbed(replay)
    ensures BatchTally(Batch(agents, source, batch), source, replay).created == 0 <==>
            forall j :: 0 <= j < |replay| && replay[j].obs.confidence >= THRESHOLD ==>
              Held(agents, replay[j].obs.reference) || BroughtBy(batch, replay[j].obs.reference)
  {
    var after := Batch(agents, source, batch);
    CreatesNothingIff(after, source, replay);
    forall j | 0 <= j < |replay|
      ensures Willing(replay[j]) <==> replay[j].obs.confidence >= THRESHOLD
      ensures !RivalBy(replay, j, replay[j].obs.reference)
      ensures Held(after, replay[j].obs.reference) <==>
              Held(agents, replay[j].obs.reference) || BroughtBy(batch, replay[j].obs.reference)
    {
      assert forall m :: 0 <= m < |replay| ==> replay[m] in replay;
      HeldAfterIff(agents, source, batch, replay[j].obs.reference);
    }
  }

  /** So a batch none of whose creates is refused can be replayed freely. */
  lemma UnrefusedReplayCreatesNothing(agents: seq<Agent>, source: SourceId, batch: seq<Sighting>, replay: seq<Sighting>)
    requires forall b :: b in batch ==> !b.race.refused
    requires Undisturbed(replay)
    requires forall r :: r in replay ==> exists b :: b in batch && b.obs == r.obs
    ensures BatchTally(Batch(agents, source, batch), source, replay).created == 0
  {
    ReplayCreatesNothingIff(agents, source, batch, replay);
    forall j | 0 <= j < |replay| && replay[j].obs.confidence >= THRESHOLD
      ensures BroughtBy(batch, replay[j].obs.reference)
    {
      assert replay[j] in replay;
      var b :| b in batch && b.obs == replay[j].obs;
      assert Brings(b, replay[j].obs.reference);
    }
  }

  /** ... but a confident sighting whose slug another agent takes first is flagged, and its replay creates. */
  lemma RefusedSightingIsCreatedOnReplay(agents: seq<Agent>, source: SourceId, obs: Observation, other: Option<Agent>)
    requires obs.confidence >= THRESHOLD && !Held(agents, obs.reference) && !Bears(other, obs.reference)
    ensures var first, replay := [Sighting(obs, Race(other, true))], [Sighting(obs, NO_RACE)];
            && BatchTally(agents, source, first) == Tally(0, 0, 1)
            && BatchTally(Batch(agents, source, first), source, replay) == Tally(1, 0, 0)
  {
    var first, replay := Sighting(obs, Race(other, true)), Sighting(obs, NO_RACE);
    OneSighting(agents, source, first);
    JoinedHeldIff(agents, other, obs.reference);
    OneSighting(Batch(agents, source, [first]), source, replay);
    HeldAfterIff(agents, source, [first], obs.reference);
    CreatesIff(Batch(agents, source, [first]), source, replay);
  }

  lemma OneSighting(agents: seq<Agent>, source: SourceId, s: Sighting)
    ensures Batch(agents, source, [s]) == StepOf(agents, source, s).agents
    ensures BatchTally(agents, source, [s]) == Count(Tally(0, 0, 0), StepOf(agents, source, s).outcome)
  {
    assert [s][..0] == [];
  }

  /** A native agent is always flagged when it is found; it is linked exactly when it appears between the
      lookup and the create, for the fallback does not look at the winner's origin. */
  lemma NativeLinkedIff(agents: seq<Agent>, source: SourceId, obs: Observation, race: Race)
    requires UniqueReferences(agents)
    ensures var step := Reconcile(agents, source, obs, race);
            (step.outcome == Linked
             && exists i :: 0 <= i < |step.agents| && step.agents[i].reference == Some(obs.reference)
                         && step.agents[i].origin == Native)
            <==> (!Held(agents, obs.reference) && obs.confidence >= THRESHOLD
                  && Bears(race.rival, obs.reference) && race.rival.value.origin == Native)
  {
    var step, table := Reconcile(agents, source, obs, race), Joined(agents, race.rival);
    StepKeepsAuthority(agents, source, Sighting(obs, race));
    JoinedHeldIff(agents, race.rival, obs.reference);
    if !Held(agents, obs.reference) && Bears(race.rival, obs.reference) {
      assert table[|agents|] == race.rival.value;
      assert Holder(table, obs.reference) == Some(|agents|);
      if step.outcome == Linked {
        assert step.agents[|agents|].reference == Some(obs.reference);
      }
    }
  }
}
