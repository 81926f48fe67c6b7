/** Sweeps of one source and the staleness findings they raise (backend/app/discovery/reconciliation.py:200-271,
    backend/app/discovery/service.py:151-286). */
module Staleness {
  import opened Wrappers
  import opened Reconciliation

  datatype RunStatus = Running | Succeeded | Partial | Failed
  datatype Run = Run(source: SourceId, status: RunStatus, startedAt: Time)

  datatype FindingKind = Ambiguous | StaleAgent
  datatype FindingStatus = Open | Resolved | Dismissed
  datatype Finding = Finding(kind: FindingKind, agent: Option<nat>, reference: Option<Reference>, status: FindingStatus)

  predicate OpenStale(f: Finding, agent: nat) {
    f.kind == StaleAgent && f.status == Open && f.agent == Some(agent)
  }

  ghost predicate IsOpen(findings: seq<Finding>, agent: nat) {
    exists j :: 0 <= j < |findings| && OpenStale(findings[j], agent)
  }

  predicate KeptOrResolved(before: Finding, after: Finding) {
    after == before || (before.kind == StaleAgent && after == before.(status := Resolved))
  }

  /** The partial unique index: one open staleness finding per agent. */
  ghost predicate OneOpen(findings: seq<Finding>) {
    forall i, j, a :: 0 <= i < j < |findings| && OpenStale(findings[i], a) ==> !OpenStale(findings[j], a)
  }

  /** Completed sweeps of the source that started after `since`. */
  function CompletedAfter(runs: seq<Run>, source: SourceId, since: Time): nat {
    if runs == [] then 0
    else
      var r := runs[|runs| - 1];
      CompletedAfter(runs[..|runs| - 1], source, since)
      + if r.source == source && r.status in {Succeeded, Partial} && r.startedAt > since then 1 else 0
  }

  /** An agent that was never observed has no misses to count. */
  function PriorMisses(runs: seq<Run>, source: SourceId, a: Agent): nat {
    match a.lastObserved
    case Some(since) => CompletedAfter(runs, source, since)
    case None => 0
  }

  predicate LinkedTo(a: Agent, source: SourceId) {
    a.source == Some(source) && a.origin != Native
  }

  predicate Seen(reference: Option<Reference>, observed: set<Reference>) {
    reference.Some? && reference.value in observed
  }

  /** What one check leaves open for an agent. */
  ghost predicate OpenAfterCheck(agents: seq<Agent>, runs: seq<Run>, source: SourceId, k: nat, observed: set<Reference>,
                                 before: seq<Finding>, i: nat)
    requires i < |agents|
  {
    if !LinkedTo(agents[i], source) then IsOpen(before, i)
    else !Seen(agents[i].reference, observed) && (IsOpen(before, i) || PriorMisses(runs, source, agents[i]) + 1 >= k)
  }

  // ----- What a history of sweeps should mean -----

  /** How one sweep, or one human decision, treated one agent. */
  datatype Event = FailedSweep | Missed | SeenWeakly | SeenConfidently | ClosedByHand

  /** Completed sweeps since the last confident sighting. */
  function SinceConfident(h: seq<Event>): nat {
    if h == [] then 0
    else match h[|h| - 1]
         case SeenConfidently => 0
         case Missed => SinceConfident(h[..|h| - 1]) + 1
         case SeenWeakly => SinceConfident(h[..|h| - 1]) + 1
         case FailedSweep => SinceConfident(h[..|h| - 1])
         case ClosedByHand => SinceConfident(h[..|h| - 1])
  }

  /** Completed sweeps in a row that missed the agent. */
  function ConsecutiveMisses(h: seq<Event>): nat {
    if h == [] then 0
    else match h[|h| - 1]
         case Missed => ConsecutiveMisses(h[..|h| - 1]) + 1
         case FailedSweep => ConsecutiveMisses(h[..|h| - 1])
         case ClosedByHand => ConsecutiveMisses(h[..|h| - 1])
         case SeenWeakly => 0
         case SeenConfidently => 0
  }

  /** The last thing that settled the finding, failed sweeps aside, was a miss. */
  predicate LastMissed(h: seq<Event>) {
    h != [] && match h[|h| - 1]
               case Missed => true
               case FailedSweep => LastMissed(h[..|h| - 1])
               case _ => false
  }

  predicate NoWeakSighting(h: seq<Event>) {
    h == [] || (match h[|h| - 1]
                case SeenConfidently => true
                case SeenWeakly => false
                case _ => NoWeakSighting(h[..|h| - 1]))
  }

  predicate Stale(h: seq<Event>, k: nat) {
    LastMissed(h) && SinceConfident(h) >= k
  }

  lemma {:induction false} MissesSinceConfident(h: seq<Event>)
    ensures ConsecutiveMisses(h) <= SinceConfident(h)
    ensures ConsecutiveMisses(h) == SinceConfident(h) <==> NoWeakSighting(h)
  {
    if h != [] { MissesSinceConfident(h[..|h| - 1]); }
  }

  /** "Missing from k sweeps in a row" is what the code decides, for every k, exactly while no weak sighting has
      fallen after the last confident one: a weak sighting closes the finding but keeps the count running. */
  lemma ConsecutiveRuleIff(h: seq<Event>)
    requires LastMissed(h)
    ensures (forall k :: k >= 1 ==> (Stale(h, k) <==> ConsecutiveMisses(h) >= k)) <==> NoWeakSighting(h)
  {
    MissesSinceConfident(h);
    if ConsecutiveMisses(h) < SinceConfident(h) {
      assert Stale(h, SinceConfident(h)) && !(ConsecutiveMisses(h) >= SinceConfident(h));
    }
  }

  /** So while sightings are confident and nobody closes findings by hand, a further miss opens the finding exactly
      when it is the k-th in a row. */
  lemma OpensAtKthMiss(h: seq<Event>, k: nat)
    requires k >= 1 && NoWeakSighting(h) && ClosedByHand !in h
    ensures !Stale(h, k) && Stale(h + [Missed], k) <==> ConsecutiveMisses(h + [Missed]) == k
  {
    assert (h + [Missed])[..|h|] == h;
    MissesSinceConfident(h);
    UnlessClosed(h);
  }

  lemma {:induction false} UnlessClosed(h: seq<Event>)
    requires ClosedByHand !in h
    ensures LastMissed(h) <==> ConsecutiveMisses(h) >= 1
  {
    if h != [] {
      assert h[|h| - 1] in h;
      UnlessClosed(h[..|h| - 1]);
    }
  }

  // ----- Tracking -----

  datatype State = State(agents: seq<Agent>, findings: seq<Finding>, runs: seq<Run>)

  /** The tables agree with the history of agent `i`: the miss counter and the open finding. */
  ghost predicate Tracks(s: State, source: SourceId, k: nat, clock: Time, i: nat, h: seq<Event>) {
    && i < |s.agents| && LinkedTo(s.agents[i], source) && s.agents[i].reference.Some?
    && s.agents[i].lastObserved.Some? && s.agents[i].lastObserved.value <= clock
    && (forall j :: 0 <= j < |s.runs| ==> s.runs[j].startedAt <= clock && s.runs[j].status != Running)
    && CompletedAfter(s.runs, source, s.agents[i].lastObserved.value) == SinceConfident(h)
    && (IsOpen(s.findings, i) <==> Stale(h, k))
  }

  /** What a source sent back: nothing usable, or a batch of observations, perhaps cut short. */
  datatype Fetch = Broken | Items(batch: seq<Sighting>, degraded: bool)

  function Observed(batch: seq<Sighting>): set<Reference> {
    set b | b in batch :: b.obs.reference
  }

  ghost predicate Confident(batch: seq<Sighting>, reference: Option<Reference>) {
    exists b :: b in batch && Some(b.obs.reference) == reference && b.obs.confidence >= THRESHOLD
  }

  ghost function EventFor(reference: Option<Reference>, fetch: Fetch): Event {
    if fetch.Broken? then FailedSweep
    else if Confident(fetch.batch, reference) then SeenConfidently
    else if Seen(reference, Observed(fetch.batch)) then SeenWeakly
    else Missed
  }

  /** Some sighting of the batch is of this agent. */
  ghost predicate Sighted(batch: seq<Sighting>, reference: Option<Reference>) {
    exists b :: b in batch && Some(b.obs.reference) == reference
  }

  /** What a sweep is for an agent: missing means no sighting of any confidence, and one at 0.75 or above makes the
      difference between weak and confident. */
  lemma EventMeans(reference: Option<Reference>, fetch: Fetch)
    ensures EventFor(reference, fetch) == FailedSweep <==> fetch.Broken?
    ensures EventFor(reference, fetch) == Missed <==> fetch.Items? && !Sighted(fetch.batch, reference)
    ensures EventFor(reference, fetch) == SeenConfidently <==>
            && fetch.Items?
            && exists b :: b in fetch.batch && Some(b.obs.reference) == reference && b.obs.confidence >= 0.75
    ensures EventFor(reference, fetch) == SeenWeakly <==>
              && fetch.Items? && Sighted(fetch.batch, reference)
              && forall b :: b in fetch.batch && Some(b.obs.reference) == reference ==> b.obs.confidence < 0.75
  {
    if fetch.Items? && Sighted(fetch.batch, reference) {
      var b :| b in fetch.batch && Some(b.obs.reference) == reference;
      assert b.obs.reference in Observed(fetch.batch);
    }
  }

  /** One finished sweep, as a relation between the tables before and after. */
  ghost predicate Swept(s: State, t: State, source: SourceId, k: nat, startedAt: Time, fetch: Fetch) {
    match fetch
    case Broken =>
      t == s.(runs := s.runs + [Run(source, Failed, startedAt)])
    case Items(batch, degraded) =>
      && t.agents == Batch(s.agents, source, batch)
      && t.runs == s.runs + [Run(source, if degraded then Partial else Succeeded, startedAt)]
      && OneOpen(t.findings)
      && forall i :: 0 <= i < |t.agents| ==>
           (IsOpen(t.findings, i) <==>
            OpenAfterCheck(t.agents, s.runs + [Run(source, Running, startedAt)], source, k, Observed(batch), s.findings,
                           i))
  }

  lemma CompletedAppend(runs: seq<Run>, r: Run, source: SourceId, since: Time)
    ensures CompletedAfter(runs + [r], source, since) == CompletedAfter(runs, source, since)
              + if r.source == source && r.status in {Succeeded, Partial} && r.startedAt > since then 1 else 0
  {
    assert (runs + [r])[..|runs|] == runs;
  }

  lemma {:induction false} NoneAfter(runs: seq<Run>, source: SourceId, since: Time)
    requires forall j :: 0 <= j < |runs| ==> runs[j].startedAt <= since
    ensures CompletedAfter(runs, source, since) == 0
  {
    if runs != [] { NoneAfter(runs[..|runs| - 1], source, since); }
  }

  lemma HolderIs(agents: seq<Agent>, i: nat)
    requires UniqueReferences(agents) && i < |agents| && agents[i].reference.Some?
    ensures Holder(agents, agents[i].reference.value) == Some(i)
  {
  }

  /** One sighting touches an agent exactly when it is confident and of its reference. */
  lemma StepStamps(agents: seq<Agent>, source: SourceId, s: Sighting, i: nat)
    requires UniqueReferences(agents) && i < |agents| && agents[i].origin != Native && agents[i].reference.Some?
    ensures var after := StepOf(agents, source, s).agents;
            && i < |after|
            && after[i] == if Some(s.obs.reference) == agents[i].reference && s.obs.confidence >= THRESHOLD
                           then Link(agents[i], source, s.obs) else agents[i]
  {
    HolderIs(agents, i);
    var table := Joined(agents, s.race.rival);
    JoinedUnique(agents, s.race.rival);
    assert table[i] == agents[i];
    HolderIs(table, i);
  }

  predicate Stamped(a: Agent, source: SourceId, at: Time) {
    a.lastObserved == Some(at) && a.source == Some(source)
  }

  lemma ConfidentLast(batch: seq<Sighting>, reference: Option<Reference>)
    requires batch != []
    ensures var last := batch[|batch| - 1];
            Confident(batch, reference) <==>
              Confident(batch[..|batch| - 1], reference)
              || (Some(last.obs.reference) == reference && last.obs.confidence >= THRESHOLD)
  {
    assert batch == batch[..|batch| - 1] + [batch[|batch| - 1]];
  }

  /** A batch touches an agent exactly when it sights it confidently, and then stamps it. */
  lemma {:induction false} BatchStamps(agents: seq<Agent>, source: SourceId, batch: seq<Sighting>, at: Time, i: nat)
    requires UniqueReferences(agents) && i < |agents| && agents[i].origin != Native && agents[i].reference.Some?
    requires forall b :: b in batch ==> b.obs.at == at
    ensures var a := Batch(agents, source, batch);
            && i < |a| && SameAuthority(agents[i], a[i])
            && if Confident(batch, agents[i].reference) then Stamped(a[i], source, at) else a[i] == agents[i]
  {
    if batch != [] {
      var front, last := batch[..|batch| - 1], batch[|batch| - 1];
      assert last in batch && forall b :: b in front ==> b in batch;
      BatchStamps(agents, source, front, at, i);
      BatchKeepsAuthority(agents, source, front);
      StepStamps(Batch(agents, source, front), source, last, i);
      ConfidentLast(batch, agents[i].reference);
    }
  }

  /** A human closing the finding is forgotten by the next miss. */
  lemma ClosingTracks(s: State, t: State, source: SourceId, k: nat, clock: Time, i: nat, h: seq<Event>)
    requires Tracks(s, source, k, clock, i, h)
    requires t == s.(findings := t.findings) && !IsOpen(t.findings, i)
    ensures Tracks(t, source, k, clock, i, h + [ClosedByHand])
  {
    assert (h + [ClosedByHand])[..|h|] == h;
  }

  // ----- Whole runs -----

  datatype Sweep = Sweep(startedAt: Time, at: Time, fetch: Fetch)

  /** A source's sweeps one after another, with the tables before and after each. */
  datatype Series = Series(source: SourceId, k: nat, clock: Time, states: seq<State>, sweeps: seq<Sweep>) {
    /** When sweep `n` starts, the last thing that happened was at this time. */
    function ClockAt(n: nat): Time
      requires n <= |sweeps|
    {
      if n == 0 then clock else sweeps[n - 1].at
    }

    ghost predicate Sweeps(n: nat)
      requires n < |sweeps| < |states|
    {
      FollowsOn(states[n], states[n + 1], source, k, ClockAt(n), sweeps[n])
    }

    /** From any tables in which references are unique and no run is under way. */
    ghost predicate Valid() {
      && |states| == |sweeps| + 1
      && Rests(states[0], clock)
      && forall n :: 0 <= n < |sweeps| ==> Sweeps(n)
    }

    /** Sweep `m` recorded agent `i`, and `n` sweeps are over. */
    ghost predicate RecordedIn(i: nat, m: nat, n: nat) {
      && Valid() && m < n <= |sweeps|
      && i < |states[m + 1].agents| && Recorded(states[m + 1].agents[i], source, sweeps[m])
    }

    function ReferenceOf(i: nat, m: nat): Option<Reference>
      requires m + 1 < |states| && i < |states[m + 1].agents|
    {
      states[m + 1].agents[i].reference
    }

    /** What the sweeps after `m`, up to the `n`-th, were for the agent recorded by sweep `m`. */
    ghost function Since(i: nat, m: nat, n: nat): seq<Event>
      requires m < n <= |sweeps| < |states| && i < |states[m + 1].agents|
      decreases n
    {
      if n == m + 1 then [SeenConfidently] else Since(i, m, n - 1) + [EventFor(ReferenceOf(i, m), sweeps[n - 1].fetch)]
    }

    ghost predicate TracksAt(i: nat, m: nat, n: nat)
      requires m < n <= |sweeps| < |states| && i < |states[m + 1].agents|
    {
      && Tracks(states[n], source, k, ClockAt(n), i, Since(i, m, n))
      && states[n].agents[i].reference == ReferenceOf(i, m)
    }

    ghost predicate OpenAt(i: nat, n: nat)
      requires n < |states|
    {
      IsOpen(states[n].findings, i)
    }
  }

  /** One sweep that starts after everything before it, and stamps its sightings when it reconciles them. */
  ghost predicate FollowsOn(s: State, t: State, source: SourceId, k: nat, clock: Time, sweep: Sweep) {
    && Swept(s, t, source, k, sweep.startedAt, sweep.fetch)
    && clock < sweep.startedAt <= sweep.at
    && (sweep.fetch.Items? ==> forall b :: b in sweep.fetch.batch ==> b.obs.at == sweep.at)
  }

  lemma FailedSweepTracks(s: State, t: State, source: SourceId, k: nat, clock: Time, sweep: Sweep, i: nat,
                          h: seq<Event>)
    requires Tracks(s, source, k, clock, i, h) && FollowsOn(s, t, source, k, clock, sweep) && sweep.fetch.Broken?
    ensures Tracks(t, source, k, sweep.at, i, h + [FailedSweep])
  {
    assert (h + [FailedSweep])[..|h|] == h;
    CompletedAppend(s.runs, t.runs[|s.runs|], source, s.agents[i].lastObserved.value);
  }

  lemma SightingTracks(s: State, t: State, source: SourceId, k: nat, clock: Time, sweep: Sweep, i: nat, h: seq<Event>)
    requires Tracks(s, source, k, clock, i, h) && UniqueReferences(s.agents)
    requires FollowsOn(s, t, source, k, clock, sweep) && EventFor(s.agents[i].reference, sweep.fetch) == SeenConfidently
    ensures Tracks(t, source, k, sweep.at, i, h + [SeenConfidently])
  {
    BatchStamps(s.agents, source, sweep.fetch.batch, sweep.at, i);
    NoneAfter(t.runs, source, sweep.at);
    assert s.agents[i].reference.value in Observed(sweep.fetch.batch);
  }

  /** Without a confident sighting the agent keeps its row and has one more completed sweep to answer for. */
  lemma UnrecordedTracks(s: State, t: State, source: SourceId, k: nat, clock: Time, sweep: Sweep, i: nat, h: seq<Event>)
    requires Tracks(s, source, k, clock, i, h) && UniqueReferences(s.agents) && sweep.fetch.Items?
    requires FollowsOn(s, t, source, k, clock, sweep) && EventFor(s.agents[i].reference, sweep.fetch) != SeenConfidently
    ensures Tracks(t, source, k, sweep.at, i, h + [EventFor(s.agents[i].reference, sweep.fetch)])
  {
    var e := EventFor(s.agents[i].reference, sweep.fetch);
    var last := s.agents[i].lastObserved.value;
    assert (h + [e])[..|h|] == h;
    BatchStamps(s.agents, source, sweep.fetch.batch, sweep.at, i);
    CompletedAppend(s.runs, t.runs[|s.runs|], source, last);
    CompletedAppend(s.runs, Run(source, Running, sweep.startedAt), source, last);
  }

  /** Every sweep extends the history by its event and keeps the tables in agreement with it. */
  lemma SweepTracks(s: State, t: State, source: SourceId, k: nat, clock: Time, sweep: Sweep, i: nat, h: seq<Event>)
    requires Tracks(s, source, k, clock, i, h) && UniqueReferences(s.agents)
    requires FollowsOn(s, t, source, k, clock, sweep)
    ensures Tracks(t, source, k, sweep.at, i, h + [EventFor(s.agents[i].reference, sweep.fetch)])
    ensures t.agents[i].reference == s.agents[i].reference
  {
    if sweep.fetch.Broken? {
      FailedSweepTracks(s, t, source, k, clock, sweep, i, h);
    } else {
      BatchStamps(s.agents, source, sweep.fetch.batch, sweep.at, i);
      if EventFor(s.agents[i].reference, sweep.fetch) == SeenConfidently {
        SightingTracks(s, t, source, k, clock, sweep, i, h);
      } else {
        UnrecordedTracks(s, t, source, k, clock, sweep, i, h);
      }
    }
  }

  /** What holds between sweeps whatever they find. */
  ghost predicate Rests(s: State, clock: Time) {
    && UniqueReferences(s.agents)
    && forall j :: 0 <= j < |s.runs| ==> s.runs[j].startedAt <= clock && s.runs[j].status != Running
  }

  lemma SweepRests(s: State, t: State, source: SourceId, k: nat, clock: Time, sweep: Sweep)
    requires Rests(s, clock) && FollowsOn(s, t, source, k, clock, sweep)
    ensures Rests(t, sweep.at)
  {
    if sweep.fetch.Items? {
      BatchKeepsAuthority(s.agents, source, sweep.fetch.batch);
    }
  }

  /** The sweep sighted the agent confidently and recorded it: created by it, linked, or linked for having lost a
      race. */
  ghost predicate Recorded(a: Agent, source: SourceId, sweep: Sweep) {
    && LinkedTo(a, source) && a.lastObserved == Some(sweep.at)
    && sweep.fetch.Items? && Confident(sweep.fetch.batch, a.reference)
  }

  /** Such a sweep starts the agent's history, wherever the agent came from and whatever was known of it before. */
  lemma RecordingTracks(s: State, t: State, source: SourceId, k: nat, clock: Time, sweep: Sweep, i: nat)
    requires Rests(s, clock) && FollowsOn(s, t, source, k, clock, sweep)
    requires i < |t.agents| && Recorded(t.agents[i], source, sweep)
    ensures Tracks(t, source, k, sweep.at, i, [SeenConfidently])
  {
    SweepRests(s, t, source, k, clock, sweep);
    NoneAfter(t.runs, source, sweep.at);
    var b :| b in sweep.fetch.batch && Some(b.obs.reference) == t.agents[i].reference && b.obs.confidence >= THRESHOLD;
    assert b.obs.reference in Observed(sweep.fetch.batch);
  }

  ghost predicate UntouchedRival(batch: seq<Sighting>, a: Agent) {
    exists b :: b in batch && b.race.rival == Some(a)
  }

  /** Every agent that appears during a sweep is recorded by it, unless it is another writer's and was left alone. */
  lemma {:induction false} NewcomersAreStamped(agents: seq<Agent>, source: SourceId, batch: seq<Sighting>, at: Time,
                                               i: nat)
    requires |agents| <= i < |Batch(agents, source, batch)|
    requires forall b :: b in batch ==> b.obs.at == at
    ensures var a := Batch(agents, source, batch)[i];
            UntouchedRival(batch, a) || (Stamped(a, source, at) && Confident(batch, a.reference))
  {
    if batch != [] {
      var front, last := batch[..|batch| - 1], batch[|batch| - 1];
      var before := Batch(agents, source, front);
      MoreSightings(front, last);
      assert batch == front + [last];
      assert last in batch && forall b :: b in front ==> b in batch;
      StepRow(before, source, last, i);
      if i < |before| {
        NewcomersAreStamped(agents, source, front, at, i);
      }
    }
  }

  lemma MoreSightings(front: seq<Sighting>, last: Sighting)
    ensures forall a :: UntouchedRival(front, a) ==> UntouchedRival(front + [last], a)
    ensures forall r :: Confident(front, r) ==> Confident(front + [last], r)
  {
    assert forall b :: b in front ==> b in front + [last];
  }

  /** One row after one sighting: kept, another writer's, or showing the confident sighting. */
  lemma StepRow(agents: seq<Agent>, source: SourceId, s: Sighting, i: nat)
    requires i < |StepOf(agents, source, s).agents|
    ensures var a := StepOf(agents, source, s).agents[i];
            || (i < |agents| && a == agents[i])
            || (i >= |agents| && s.race.rival == Some(a))
            || (s.obs.confidence >= THRESHOLD && Shows(a, source, s.obs, None))
  {
  }

  lemma {:induction false} SeriesRests(x: Series, n: nat)
    requires x.Valid() && n <= |x.sweeps|
    ensures Rests(x.states[n], x.ClockAt(n))
  {
    if n > 0 {
      SeriesRests(x, n - 1);
      assert x.Sweeps(n - 1);
      SweepRests(x.states[n - 1], x.states[n], x.source, x.k, x.ClockAt(n - 1), x.sweeps[n - 1]);
    }
  }

  ghost predicate RivalsWellSourced(fetch: Fetch) {
    fetch.Items? ==> forall b :: b in fetch.batch && b.race.rival.Some? ==> WellSourced(b.race.rival.value)
  }

  /** Nor does any sweep ever leave an agent linked to a source without an observation on record. */
  lemma {:induction false} LinkedAreObserved(x: Series, n: nat)
    requires x.Valid() && n <= |x.sweeps| && SourcedAreObserved(x.states[0].agents)
    requires forall m :: 0 <= m < |x.sweeps| ==> RivalsWellSourced(x.sweeps[m].fetch)
    ensures forall i :: 0 <= i < |x.states[n].agents| && LinkedTo(x.states[n].agents[i], x.source) ==>
              x.states[n].agents[i].lastObserved.Some?
    ensures SourcedAreObserved(x.states[n].agents)
  {
    if n > 0 {
      LinkedAreObserved(x, n - 1);
      assert x.Sweeps(n - 1) && RivalsWellSourced(x.sweeps[n - 1].fetch);
      if x.sweeps[n - 1].fetch.Items? {
        BatchKeepsObserved(x.states[n - 1].agents, x.source, x.sweeps[n - 1].fetch.batch);
      }
      assert forall i :: 0 <= i < |x.states[n].agents| ==> WellSourced(x.states[n].agents[i]);
    }
  }

  lemma StartTracks(x: Series, i: nat, m: nat)
    requires x.RecordedIn(i, m, m + 1)
    ensures x.TracksAt(i, m, m + 1)
  {
    assert x.Sweeps(m);
    SeriesRests(x, m);
    RecordingTracks(x.states[m], x.states[m + 1], x.source, x.k, x.ClockAt(m), x.sweeps[m], i);
  }

  lemma NextTracks(x: Series, i: nat, m: nat, n: nat)
    requires x.RecordedIn(i, m, n + 1) && m < n && x.TracksAt(i, m, n)
    ensures x.TracksAt(i, m, n + 1)
  {
    assert x.Sweeps(n);
    SeriesRests(x, n);
    SweepTracks(x.states[n], x.states[n + 1], x.source, x.k, x.ClockAt(n), x.sweeps[n], i, x.Since(i, m, n));
  }

  lemma {:induction false} SeriesTracks(x: Series, i: nat, m: nat, n: nat)
    requires x.RecordedIn(i, m, n)
    ensures x.TracksAt(i, m, n)
    decreases n
  {
    if n == m + 1 {
      StartTracks(x, i, m);
    } else {
      SeriesTracks(x, i, m, n - 1);
      NextTracks(x, i, m, n - 1);
    }
  }

  /** Over any number of non-overlapping sweeps from any tables at rest: an agent that one of them recorded has an
      open finding exactly when its history since then says it is stale. */
  lemma OpenIffStale(x: Series, i: nat, m: nat, n: nat)
    requires x.RecordedIn(i, m, n)
    ensures x.OpenAt(i, n) <==> Stale(x.Since(i, m, n), x.k)
  {
    SeriesTracks(x, i, m, n);
  }

  lemma {:induction false} NobodyClosed(x: Series, i: nat, m: nat, n: nat)
    requires m < n <= |x.sweeps| < |x.states| && i < |x.states[m + 1].agents|
    ensures ClosedByHand !in x.Since(i, m, n)
    decreases n
  {
    if n > m + 1 { NobodyClosed(x, i, m, n - 1); }
  }

  lemma OpensOnlyByMiss(h: seq<Event>, e: Event, k: nat)
    requires k >= 1 && NoWeakSighting(h) && ClosedByHand !in h
    ensures !Stale(h, k) && Stale(h + [e], k) <==> e == Missed && ConsecutiveMisses(h + [e]) == k
  {
    assert (h + [e])[..|h|] == h;
    if e == Missed { OpensAtKthMiss(h, k); }
  }

  /** And while its sightings are confident, a sweep opens the finding exactly when the agent has then been missing
      from k completed sweeps in a row, this one included. */
  lemma FindingOpensAtKthMiss(x: Series, i: nat, m: nat, n: nat)
    requires x.RecordedIn(i, m, n + 1) && m < n && x.k >= 1 && NoWeakSighting(x.Since(i, m, n))
    ensures !x.OpenAt(i, n) && x.OpenAt(i, n + 1) <==>
            EventFor(x.ReferenceOf(i, m), x.sweeps[n].fetch) == Missed && ConsecutiveMisses(x.Since(i, m, n + 1)) == x.k
  {
    OpenIffStale(x, i, m, n);
    OpenIffStale(x, i, m, n + 1);
    NobodyClosed(x, i, m, n);
    OpensOnlyByMiss(x.Since(i, m, n), EventFor(x.ReferenceOf(i, m), x.sweeps[n].fetch), x.k);
  }

  // ----- The services -----

  class Discovery {
    var agents: seq<Agent>
    var findings: seq<Finding>
    var runs: seq<Run>

    constructor ()
      ensures agents == [] && findings == [] && runs == []
    {
      agents, findings, runs := [], [], [];
    }

    ghost function Tables(): State
      reads this
    {
      State(agents, findings, runs)
    }

    method ReconcileOne(source: SourceId, obs: Observation, race: Race) returns (outcome: Outcome)
      modifies this`agents, this`findings
      ensures Step(agents, outcome) == Reconcile(old(agents), source, obs, race)
      ensures findings == old(findings) + if outcome == Flagged
                then [Finding(Ambiguous, Holder(old(agents), obs.reference), Some(obs.reference), Open)] else []
    {
      var found := Holder(agents, obs.reference);
      // Whatever another writer commits is there from now on.
      agents := Joined(agents, race.rival);
      if found.Some? && agents[found.value].origin == Native {
        findings := findings + [Finding(Ambiguous, found, Some(obs.reference), Open)];
        return Flagged;
      }
      if obs.confidence < THRESHOLD {
        findings := findings + [Finding(Ambiguous, found, Some(obs.reference), Open)];
        return Flagged;
      }
      var existing := found;
      if existing.None? {
        var taken := Holder(agents, obs.reference);
        if taken.None? && !race.refused {
          agents := agents + [NewAgent(source, obs)];
          return Created;
        }
        // The create failed: link the winner, if there is one.
        existing := taken;
        if existing.None? {
          findings := findings + [Finding(Ambiguous, None, Some(obs.reference), Open)];
          return Flagged;
        }
      }
      agents := agents[existing.value := Link(agents[existing.value], source, obs)];
      return Linked;
    }

    method ReconcileBatch(source: SourceId, batch: seq<Sighting>) returns (tally: Tally)
      modifies this`agents, this`findings
      ensures agents == Batch(old(agents), source, batch)
      ensures tally == BatchTally(old(agents), source, batch)
      ensures |findings| == |old(findings)| + tally.flagged && findings[..|old(findings)|] == old(findings)
      ensures forall j :: |old(findings)| <= j < |findings| ==> findings[j].kind == Ambiguous
    {
      tally := Tally(0, 0, 0);
      for i := 0 to |batch|
        invariant agents == Batch(old(agents), source, batch[..i])
        invariant tally == BatchTally(old(agents), source, batch[..i])
        invariant |findings| == |old(findings)| + tally.flagged && findings[..|old(findings)|] == old(findings)
        invariant forall j :: |old(findings)| <= j < |findings| ==> findings[j].kind == Ambiguous
      {
        assert batch[..i + 1][..i] == batch[..i];
        var outcome := ReconcileOne(source, batch[i].obs, batch[i].race);
        tally := Count(tally, outcome);
      }
      assert batch[..|batch|] == batch;
    }

    method FindOpen(agent: nat) returns (at: Option<nat>)
      ensures at.Some? ==> at.value < |findings| && OpenStale(findings[at.value], agent)
      ensures at.None? ==> !IsOpen(findings, agent)
    {
      for j := 0 to |findings|
        invariant forall i :: 0 <= i < j ==> !OpenStale(findings[i], agent)
      {
        if OpenStale(findings[j], agent) {
          return Some(j);
        }
      }
      return None;
    }

    /** Visits every linked agent: resolves, keeps or raises its finding. */
    method CheckStaleness(source: SourceId, k: nat, observed: set<Reference>)
      requires OneOpen(findings)
      modifies this`findings
      ensures OneOpen(findings)
      ensures forall i :: 0 <= i < |agents| ==>
                (IsOpen(findings, i) <==> OpenAfterCheck(agents, runs, source, k, observed, old(findings), i))
      ensures |old(findings)| <= |findings|
      ensures forall j :: 0 <= j < |old(findings)| ==> KeptOrResolved(old(findings)[j], findings[j])
    {
      for n := 0 to |agents|
        invariant OneOpen(findings)
        invariant forall i :: 0 <= i < n ==>
          (IsOpen(findings, i) <==> OpenAfterCheck(agents, runs, source, k, observed, old(findings), i))
        invariant forall i :: n <= i ==> (IsOpen(findings, i) <==> IsOpen(old(findings), i))
        invariant |old(findings)| <= |findings|
        invariant forall j :: 0 <= j < |old(findings)| ==> KeptOrResolved(old(findings)[j], findings[j])
      {
        var a := agents[n];
        if LinkedTo(a, source) {
          var at := FindOpen(n);
          ghost var was := findings;
          if Seen(a.reference, observed) {
            if at.Some? {
              findings := findings[at.value := findings[at.value].(status := Resolved)];
              ResolveCloses(was, at.value, n);
            }
          } else if at.None? && PriorMisses(runs, source, a) + 1 >= k {
            findings := findings + [Finding(StaleAgent, Some(n), a.reference, Open)];
            RaiseOpens(was, findings[|was|], n);
          }
        }
      }
    }

    /** One sweep: start, fetch, reconcile, check, finish. */
    method RunSource(source: SourceId, k: nat, startedAt: Time, fetch: Fetch)
      requires OneOpen(findings)
      modifies this
      ensures Swept(old(Tables()), Tables(), source, k, startedAt, fetch)
      ensures OneOpen(findings)
    {
      runs := runs + [Run(source, Running, startedAt)];
      if fetch.Broken? {
        runs := runs[|runs| - 1 := Run(source, Failed, startedAt)];
        return;
      }
      var _ := ReconcileBatch(source, fetch.batch);
      SameOpen(old(findings), findings);
      CheckStaleness(source, k, Observed(fetch.batch));
      runs := runs[|runs| - 1 := Run(source, if fetch.degraded then Partial else Succeeded, startedAt)];
    }
  }

  lemma ResolveCloses(findings: seq<Finding>, at: nat, agent: nat)
    requires at < |findings| && OpenStale(findings[at], agent) && OneOpen(findings)
    ensures var after := findings[at := findings[at].(status := Resolved)];
            && OneOpen(after) && !IsOpen(after, agent)
            && forall i :: i != agent ==> (IsOpen(after, i) <==> IsOpen(findings, i))
  {
    var after := findings[at := findings[at].(status := Resolved)];
    forall i | i != agent && IsOpen(findings, i) ensures IsOpen(after, i) {
      var j :| 0 <= j < |findings| && OpenStale(findings[j], i);
      assert OpenStale(after[j], i);
    }
    forall i | IsOpen(after, i) ensures i != agent && IsOpen(findings, i) {
      var j :| 0 <= j < |after| && OpenStale(after[j], i);
      assert OpenStale(findings[j], i);
    }
  }

  lemma RaiseOpens(findings: seq<Finding>, f: Finding, agent: nat)
    requires OpenStale(f, agent) && !IsOpen(findings, agent) && OneOpen(findings)
    ensures OneOpen(findings + [f]) && forall i :: IsOpen(findings + [f], i) <==> i == agent || IsOpen(findings, i)
  {
    assert OpenStale((findings + [f])[|findings|], agent);
    forall i | IsOpen(findings, i) ensures IsOpen(findings + [f], i) {
      var j :| 0 <= j < |findings| && OpenStale(findings[j], i);
      assert OpenStale((findings + [f])[j], i);
    }
  }

  /** Reconciliation's own findings are of the other kind. */
  lemma SameOpen(before: seq<Finding>, after: seq<Finding>)
    requires |before| <= |after| && after[..|before|] == before && OneOpen(before)
    requires forall j :: |before| <= j < |after| ==> after[j].kind == Ambiguous
    ensures OneOpen(after) && forall i :: IsOpen(after, i) <==> IsOpen(before, i)
  {
    assert forall j :: 0 <= j < |before| ==> after[j] == before[j];
    forall i | IsOpen(before, i) ensures IsOpen(after, i) {
      var j :| 0 <= j < |before| && OpenStale(before[j], i);
      assert OpenStale(after[j], i);
    }
  }
}
