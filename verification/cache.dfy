/** The versioned permission cache (backend/app/authorization/cache.py:33-124) under interleaved readers and
    mutations. Every mutation and its version bump are one transaction of the one organization modelled
    (backend/app/authorization/routes.py:60-69). */
module Cache {
  import opened Wrappers
  import opened Engine

  const TTL: Time := 300_000_000

  datatype Entry = Entry(grants: seq<Grant>, version: nat, expiresAt: Time)

  /** A reader between two of its statements: it has read the version, then the clock, then finds its entry
      unusable and collects grants assignment by assignment, `at` being the resolver's own clock. */
  datatype Reader =
    | Versioned(user: UserId, version: nat)
    | Timed(user: UserId, version: nat, now: Time)
    | Collecting(user: UserId, version: nat, now: Time, at: Time, todo: seq<Assignment>, found: seq<Grant>)

  /** `version` is None while the organization has no version row. */
  datatype State = State(world: World, version: Option<nat>, entries: map<UserId, Entry>, readers: map<nat, Reader>,
                         clock: Time)

  function Current(version: Option<nat>): nat {
    version.GetOr(1)
  }

  function Bumped(version: Option<nat>): nat {
    if version.None? then 2 else version.value + 1
  }

  predicate Hits(entries: map<UserId, Entry>, user: UserId, version: nat, now: Time) {
    user in entries && entries[user].version == version && entries[user].expiresAt > now
  }

  datatype Action =
    | ReadVersion(reader: nat, user: UserId)
    | ReadClock(reader: nat)
    | Lookup(reader: nat, legacy: seq<Grant>)
    | Collect(reader: nat, got: seq<Grant>)
    | Store(reader: nat, committed: bool)
    | Mutate(world: World)
    | Tick(to: Time)

  ghost predicate Enabled(s: State, a: Action) {
    match a
    case ReadVersion(r, _) => r !in s.readers
    case ReadClock(r) => r in s.readers && s.readers[r].Versioned?
    case Lookup(r, legacy) =>
      r in s.readers && s.readers[r].Timed? && Elements(legacy) == LegacyGrants(s.world, s.readers[r].user)
    case Collect(r, got) =>
      // The queries behind one assignment may straddle mutations, so `got` may then be any mixture; while the
      // version read is still current there has been none since.
      && r in s.readers && s.readers[r].Collecting? && s.readers[r].todo != []
      && var c := s.readers[r];
      && (c.version == Current(s.version) ==>
            var a := c.todo[0];
            Elements(got) == if a.user == c.user && !Lapsed(a, c.at) then GrantsVia(s.world, a) else {})
    case Store(r, _) => r in s.readers && s.readers[r].Collecting? && s.readers[r].todo == []
    case Mutate(_) => true
    case Tick(to) => to >= s.clock
  }

  ghost function Next(s: State, a: Action): State
    requires Enabled(s, a)
  {
    match a
    case ReadVersion(r, user) =>
      // A missing row is created at version 1.
      s.(version := Some(Current(s.version)), readers := s.readers[r := Versioned(user, Current(s.version))])
    case ReadClock(r) => s.(readers := s.readers[r := Timed(s.readers[r].user, s.readers[r].version, s.clock)])
    case Lookup(r, legacy) =>
      var t := s.readers[r];
      if Hits(s.entries, t.user, t.version, t.now) then s.(readers := s.readers - {r})
      else s.(readers := s.readers[r := Collecting(t.user, t.version, t.now, s.clock, s.world.assignments, legacy)])
    case Collect(r, got) =>
      var c := s.readers[r];
      s.(readers := s.readers[r := c.(todo := c.todo[1..], found := c.found + got)])
    case Store(r, committed) =>
      // Unconditional upsert, whatever the entry holds by now; a failed commit only means a later miss.
      var c := s.readers[r];
      s.(readers := s.readers - {r},
         entries := if committed then s.entries[c.user := Entry(c.found, c.version, c.now + TTL)] else s.entries)
    case Mutate(world) => s.(world := world, version := Some(Bumped(s.version)))
    case Tick(to) => s.(clock := to)
  }

  // ----- Invariant -----

  /** An entry tagged with the current version is a fresh resolution of the current world, at a moment less
      than a lifetime before it expires. */
  ghost predicate EntryFresh(w: World, clock: Time, user: UserId, e: Entry) {
    exists t :: FreshAt(w, clock, user, e, t)
  }

  ghost predicate FreshAt(w: World, clock: Time, user: UserId, e: Entry, t: Time) {
    e.expiresAt - TTL <= t <= clock && Elements(e.grants) == Resolved(w, user, t)
  }

  ghost predicate ReaderSound(s: State, r: nat)
    requires r in s.readers
  {
    var c := s.readers[r];
    && c.version <= Current(s.version)
    && (c.Timed? ==> c.now <= s.clock)
    && (c.Collecting? ==>
          && c.now <= c.at <= s.clock
          && (c.version == Current(s.version) ==>
                Elements(c.found) + GrantsViaAll(s.world, c.user, c.todo, c.at) == Resolved(s.world, c.user, c.at)))
  }

  ghost predicate Inv(s: State) {
    && Current(s.version) >= 1
    && (forall r :: r in s.readers ==> ReaderSound(s, r))
    && (forall u :: u in s.entries ==> s.entries[u].version <= Current(s.version))
    && (forall u :: u in s.entries && s.entries[u].version == Current(s.version) ==>
         EntryFresh(s.world, s.clock, u, s.entries[u]))
  }

  lemma CollectKeepsInv(s: State, a: Action)
    requires Inv(s) && Enabled(s, a) && a.Collect?
    ensures Inv(Next(s, a))
  {
    var s' := Next(s, a);
    var c, c' := s.readers[a.reader], s'.readers[a.reader];
    assert ReaderSound(s, a.reader);
    if c.version == Current(s.version) {
      assert c.todo == [c.todo[0]] + c.todo[1..];
      assert Elements(c'.found) == Elements(c.found) + Elements(a.got);
      assert GrantsViaAll(s.world, c.user, c.todo, c.at)
          == Elements(a.got) + GrantsViaAll(s.world, c.user, c.todo[1..], c.at);
    }
    forall r | r in s'.readers ensures ReaderSound(s', r) { assert ReaderSound(s, r); }
  }

  lemma StoreKeepsInv(s: State, a: Action)
    requires Inv(s) && Enabled(s, a) && a.Store?
    ensures Inv(Next(s, a))
  {
    var s' := Next(s, a);
    var c := s.readers[a.reader];
    assert ReaderSound(s, a.reader);
    if a.committed && c.version == Current(s.version) {
      assert GrantsViaAll(s.world, c.user, [], c.at) == {};
      assert FreshAt(s'.world, s'.clock, c.user, s'.entries[c.user], c.at);
    }
    forall r | r in s'.readers ensures ReaderSound(s', r) { assert ReaderSound(s, r); }
  }

  lemma LookupKeepsInv(s: State, a: Action)
    requires Inv(s) && Enabled(s, a) && a.Lookup?
    ensures Inv(Next(s, a))
  {
    var s' := Next(s, a);
    assert ReaderSound(s, a.reader);
    forall r | r in s'.readers ensures ReaderSound(s', r) { assert ReaderSound(s, r); }
  }

  lemma StepKeepsInv(s: State, a: Action)
    requires Inv(s) && Enabled(s, a)
    ensures Inv(Next(s, a)) && Current(s.version) <= Current(Next(s, a).version)
  {
    if a.Lookup? { LookupKeepsInv(s, a); }
    else if a.Collect? { CollectKeepsInv(s, a); }
    else if a.Store? { StoreKeepsInv(s, a); }
    else {
      var s' := Next(s, a);
      forall r | r in s'.readers ensures ReaderSound(s', r) { assert r in s.readers ==> ReaderSound(s, r); }
      forall u | u in s'.entries && s'.entries[u].version == Current(s'.version)
        ensures EntryFresh(s'.world, s'.clock, u, s'.entries[u])
      {
        var t :| FreshAt(s.world, s.clock, u, s.entries[u], t);
        assert FreshAt(s'.world, s'.clock, u, s'.entries[u], t);
      }
    }
  }

  // ----- Runs -----

  ghost predicate Initial(s: State) {
    Current(s.version) >= 1 && s.entries == map[] && s.readers == map[]
  }

  ghost predicate Runs(s: State, actions: seq<Action>)
    decreases actions
  {
    actions == [] || (Enabled(s, actions[0]) && Runs(Next(s, actions[0]), actions[1..]))
  }

  ghost function After(s: State, actions: seq<Action>): State
    requires Runs(s, actions)
    decreases actions
  {
    if actions == [] then s else After(Next(s, actions[0]), actions[1..])
  }

  lemma {:induction false} RunKeepsInv(s: State, actions: seq<Action>)
    requires Inv(s) && Runs(s, actions)
    ensures Inv(After(s, actions)) && Current(s.version) <= Current(After(s, actions).version)
    decreases actions
  {
    if actions != [] {
      StepKeepsInv(s, actions[0]);
      RunKeepsInv(Next(s, actions[0]), actions[1..]);
    }
  }

  /** Between fresh resolution and what was resolved earlier stand only assignments that lapsed recently. */
  ghost predicate FreshButLapses(w: World, user: UserId, grants: set<Grant>, since: Time, now: Time) {
    && Resolved(w, user, now) <= grants
    && forall g :: g in grants - Resolved(w, user, now) ==>
         exists a :: a in w.assignments && a.user == user && g in GrantsVia(w, a)
                  && a.expiresAt.Some? && since < a.expiresAt.value <= now
  }

  /** In every interleaving, an unexpired entry of the current version holds everything a fresh resolution
      would, and beyond it only what came from assignments that lapsed less than a lifetime ago. */
  lemma CurrentEntriesAreFresh(s: State, actions: seq<Action>, user: UserId, now: Time)
    requires Initial(s) && Runs(s, actions)
    requires now <= After(s, actions).clock
    requires Hits(After(s, actions).entries, user, Current(After(s, actions).version), now)
    ensures var end := After(s, actions);
            FreshButLapses(end.world, user, Elements(end.entries[user].grants), now - TTL, end.clock)
  {
    RunKeepsInv(s, actions);
    var end := After(s, actions);
    var t :| FreshAt(end.world, end.clock, user, end.entries[user], t);
    LapsesOnly(end.world, user, t, end.clock);
  }

  /** What a reader collects itself is exactly fresh whenever its version is still current when it is done. */
  lemma CollectedIsFresh(s: State, actions: seq<Action>, r: nat)
    requires Initial(s) && Runs(s, actions)
    requires var end := After(s, actions);
             r in end.readers && end.readers[r].Collecting? && end.readers[r].todo == []
             && end.readers[r].version == Current(end.version)
    ensures var end := After(s, actions);
            Elements(end.readers[r].found) == Resolved(end.world, end.readers[r].user, end.readers[r].at)
  {
    RunKeepsInv(s, actions);
    var end := After(s, actions);
    assert ReaderSound(end, r);
    assert GrantsViaAll(end.world, end.readers[r].user, [], end.readers[r].at) == {};
  }

  /** After a mutation nothing cached is current, so no reader that starts later can hit an older entry. */
  lemma MutationRetiresEverything(s: State, world: World, user: UserId, now: Time)
    requires Inv(s)
    ensures var s' := Next(s, Mutate(world));
            !Hits(s'.entries, user, Current(s'.version), now)
  {
  }

  lemma StillFreshLater(w: World, clock: Time, later: Time, entries: map<UserId, Entry>, version: nat)
    requires clock <= later
    requires forall u :: u in entries && entries[u].version == version ==> EntryFresh(w, clock, u, entries[u])
    ensures forall u :: u in entries && entries[u].version == version ==> EntryFresh(w, later, u, entries[u])
  {
    forall u | u in entries && entries[u].version == version ensures EntryFresh(w, later, u, entries[u]) {
      var t :| FreshAt(w, clock, u, entries[u], t);
      assert FreshAt(w, later, u, entries[u], t);
    }
  }

  // ----- The service, uninterrupted -----

  class PermissionCache {
    var world: World
    var version: Option<nat>
    var entries: map<UserId, Entry>

    constructor (world: World)
      ensures this.world == world && version == None && entries == map[]
    {
      this.world, version, entries := world, None, map[];
    }

    /** Entries never run ahead of the version, and current ones are fresh. */
    ghost predicate Coherent(clock: Time)
      reads this
    {
      && Current(version) >= 1
      && forall u :: u in entries ==>
           && entries[u].version <= Current(version)
           && (entries[u].version == Current(version) ==> EntryFresh(world, clock, u, entries[u]))
    }

    method CurrentVersion() returns (v: nat)
      modifies this`version
      ensures version == Some(v) && v == if old(version).Some? then old(version).value else 1
    {
      if version.None? {
        version := Some(1);
      }
      return version.value;
    }

    method BumpVersion() returns (v: nat)
      modifies this`version
      ensures version == Some(v) && v == Bumped(old(version)) && v > Current(old(version))
      ensures v == if old(version).Some? then old(version).value + 1 else 2
    {
      if version.None? {
        version := Some(2);
      } else {
        version := Some(version.value + 1);
      }
      return version.value;
    }

    /** A mutation and its bump: whatever the change, the cache is coherent with the new world. */
    method Mutate(changed: World, ghost clock: Time)
      requires Coherent(clock)
      modifies this
      ensures world == changed && entries == old(entries) && version == Some(Bumped(old(version)))
      ensures Coherent(clock)
    {
      world := changed;
      var _ := BumpVersion();
    }

    /** `now` is read after the version, `at` by the resolver later still. */
    method GetGrants(enabled: bool, user: UserId, now: Time, at: Time) returns (grants: seq<Grant>, hit: bool)
      requires Coherent(now) && now <= at
      modifies this
      ensures hit <==>
                && enabled && user in old(entries) && now < old(entries)[user].expiresAt
                && old(entries)[user].version == if old(version).Some? then old(version).value else 1
      ensures hit ==> grants == old(entries)[user].grants && entries == old(entries)
      ensures !hit ==> Elements(grants) == Resolved(world, user, at)
      ensures !hit && enabled ==>
                entries == old(entries)[user := Entry(grants, Current(old(version)), now + 300_000_000)]
      ensures !enabled ==> entries == old(entries) && version == old(version)
      ensures world == old(world) && Current(version) == Current(old(version))
      ensures Coherent(at)
      ensures FreshButLapses(world, user, Elements(grants), now - TTL, at)
    {
      LapsesOnly(world, user, at, at);
      StillFreshLater(world, now, at, entries, Current(version));
      if !enabled {
        grants := ResolveGrants(world, user, at);
        return grants, false;
      }
      var v := CurrentVersion();
      if Hits(entries, user, v, now) {
        grants := entries[user].grants;
        ghost var t :| FreshAt(world, now, user, entries[user], t);
        LapsesOnly(world, user, t, at);
        return grants, true;
      }
      grants := ResolveGrants(world, user, at);
      entries := entries[user := Entry(grants, v, now + TTL)];
      assert FreshAt(world, at, user, entries[user], at);
      return grants, false;
    }
  }
}
