/** Verifying signed requests against the single-use nonce ledger (backend/app/bridge/identity.py:280-359).
    Time is in microseconds. The HMAC is modelled as a free constructor: a tag matches only its own
    secret and message. */
module Replay {
  import opened Wrappers
  import opened Grants
  import opened Signing

  const WINDOW: Time := 300_000_000
  const MAX_NONCE := 128

  datatype Tag = Mac(secret: nat, message: string) | Unsigned

  /** `sentAt` is the header timestamp read as an integer, None when it is not one. */
  datatype Request = Request(key: KeyId, message: Message, sentAt: Option<Time>, signature: Tag)

  datatype Denial = SignatureInvalid | GrantRevoked | GrantExpired | TimestampExpired | ReplayDetected | SubjectNotFound

  datatype Outcome = Accepted(key: KeyId, agent: AgentId) | Denied(why: Denial)

  type Nonces = map<(KeyId, string), Time>

  /** The tables one call reads, and its clock. */
  datatype Context = Context(grants: map<KeyId, Grant>, subjects: set<AgentId>, now: Time)

  function Check(c: Context, r: Request): Option<Denial> {
    if r.key !in c.grants then Some(SignatureInvalid)
    else
      var g := c.grants[r.key];
      if g.revokedAt.Some? then Some(GrantRevoked)
      else if g.expiresAt.Some? && g.expiresAt.value <= c.now then Some(GrantExpired)
      else if r.sentAt.None? then Some(SignatureInvalid)
      else if c.now - r.sentAt.value > WINDOW || r.sentAt.value - c.now > WINDOW then Some(TimestampExpired)
      else if r.message.nonce == "" || |r.message.nonce| > MAX_NONCE then Some(SignatureInvalid)
      else if r.signature != Mac(g.secret, SigningString(r.message)) then Some(SignatureInvalid)
      else None
  }

  /** A grant's expired nonces are deleted on the way past. */
  function Reaped(nonces: Nonces, key: KeyId, now: Time): Nonces {
    map n | n in nonces && !(n.0 == key && nonces[n] < now) :: nonces[n]
  }

  predicate Consumes(nonces: Nonces, c: Context, r: Request) {
    Check(c, r).None? && (r.key, r.message.nonce) !in Reaped(nonces, r.key, c.now)
  }

  function Verdict(nonces: Nonces, c: Context, r: Request): Outcome {
    match Check(c, r)
    case Some(why) => Denied(why)
    case None =>
      if !Consumes(nonces, c, r) then Denied(ReplayDetected)
      else if c.grants[r.key].agent !in c.subjects then Denied(SubjectNotFound)
      else Accepted(r.key, c.grants[r.key].agent)
  }

  /** A replay rolls the whole transaction back, reaping included. */
  function NoncesAfter(nonces: Nonces, c: Context, r: Request): Nonces {
    if Consumes(nonces, c, r)
    then Reaped(nonces, r.key, c.now)[(r.key, r.message.nonce) := c.now + WINDOW]
    else nonces
  }

  /** A request is accepted exactly when its key is known, unrevoked and unexpired, its date is within five minutes of
      the clock either way, its nonce has 1 to 128 characters and was not used with the key within the last five
      minutes, its signature is the key's own over it, and the key's agent exists; that agent is then the caller. */
  lemma AcceptedIff(nonces: Nonces, c: Context, r: Request)
    ensures Verdict(nonces, c, r).Accepted? <==>
              && r.key in c.grants && c.grants[r.key].revokedAt == None
              && (c.grants[r.key].expiresAt.Some? ==> c.now < c.grants[r.key].expiresAt.value)
              && r.sentAt.Some? && -300_000_000 <= c.now - r.sentAt.value <= 300_000_000
              && 1 <= |r.message.nonce| <= 128
              && r.signature == Mac(c.grants[r.key].secret, SigningString(r.message))
              && ((r.key, r.message.nonce) in nonces ==> nonces[(r.key, r.message.nonce)] < c.now)
              && c.grants[r.key].agent in c.subjects
    ensures Verdict(nonces, c, r).Accepted? ==> Verdict(nonces, c, r) == Accepted(r.key, c.grants[r.key].agent)
  {
  }

  /** Why a request is denied. An unknown key, an unreadable date, a nonce of the wrong length and a wrong signature
      look alike; a dead grant is reported before anything about the request, and its nonce only looked up last. */
  lemma DeniedBecause(nonces: Nonces, c: Context, r: Request)
    requires r.key in c.grants && Verdict(nonces, c, r).Denied?
    ensures var g, why := c.grants[r.key], Verdict(nonces, c, r).why;
            var dead := g.revokedAt.Some? || (g.expiresAt.Some? && g.expiresAt.value <= c.now);
            var late := r.sentAt.Some? && !(-300_000_000 <= c.now - r.sentAt.value <= 300_000_000);
            var ill := r.sentAt.None? || r.message.nonce == "" || |r.message.nonce| > 128
                       || r.signature != Mac(g.secret, SigningString(r.message));
            var used := (r.key, r.message.nonce) in nonces && nonces[(r.key, r.message.nonce)] >= c.now;
            && (why == GrantRevoked <==> g.revokedAt.Some?)
            && (why == GrantExpired <==> g.revokedAt.None? && dead)
            && (why == TimestampExpired <==> !dead && late)
            && (why == SignatureInvalid <==> !dead && !late && ill)
            && (why == ReplayDetected <==> !dead && !late && !ill && used)
            && (why == SubjectNotFound <==> !dead && !late && !ill && !used && g.agent !in c.subjects)
  {
  }

  lemma UnknownKeyIsDenied(nonces: Nonces, c: Context, r: Request)
    requires r.key !in c.grants
    ensures Verdict(nonces, c, r) == Denied(SignatureInvalid)
  {
  }

  /** What a passing request leaves behind: its own nonce for five minutes, and every other one but the expired ones
      of its key. */
  lemma LedgerAfter(nonces: Nonces, c: Context, r: Request, key: KeyId, nonce: string)
    requires NoncesAfter(nonces, c, r) != nonces
    ensures var after := NoncesAfter(nonces, c, r);
            if key == r.key && nonce == r.message.nonce
            then (key, nonce) in after && after[(key, nonce)] == c.now + 300_000_000
            else && ((key, nonce) in after <==>
                       (key, nonce) in nonces && (key != r.key || nonces[(key, nonce)] >= c.now))
                 && ((key, nonce) in after ==> after[(key, nonce)] == nonces[(key, nonce)])
  {
  }

  /** A call changes the ledger exactly when it passes every check and its nonce is absent or expired; so does a
      call that is denied all the same, when in addition the grant's agent is gone. */
  lemma LedgerChangesIff(nonces: Nonces, c: Context, r: Request)
    ensures var n := (r.key, r.message.nonce);
            var unused := Check(c, r).None? && (n !in nonces || nonces[n] < c.now);
            && (NoncesAfter(nonces, c, r) != nonces <==> unused)
            && (NoncesAfter(nonces, c, r) != nonces && Verdict(nonces, c, r).Denied?
                <==> unused && c.grants[r.key].agent !in c.subjects)
  {
    var n := (r.key, r.message.nonce);
    if Consumes(nonces, c, r) {
      assert NoncesAfter(nonces, c, r)[n] == c.now + WINDOW;
      if n in nonces { assert nonces[n] < c.now; }
    }
  }

  // ----- Runs -----

  datatype Event = Event(context: Context, request: Request)

  function Ledger(start: Nonces, run: seq<Event>, n: nat): Nonces
    requires n <= |run|
  {
    if n == 0 then start else NoncesAfter(Ledger(start, run, n - 1), run[n - 1].context, run[n - 1].request)
  }

  predicate ConsumesAt(start: Nonces, run: seq<Event>, i: nat)
    requires i < |run|
  {
    Consumes(Ledger(start, run, i), run[i].context, run[i].request)
  }

  predicate AcceptedAt(start: Nonces, run: seq<Event>, i: nat)
    requires i < |run|
  {
    Verdict(Ledger(start, run, i), run[i].context, run[i].request).Accepted?
  }

  predicate ClockRuns(run: seq<Event>) {
    forall i, j :: 0 <= i < j < |run| ==> run[i].context.now <= run[j].context.now
  }

  predicate SameNonce(a: Request, b: Request) {
    a.key == b.key && a.message.nonce == b.message.nonce
  }

  /** Some call for the same key has consumed a nonce of its own, between `i` and `j`, at a clock past the window of
      call `i`: it reaped what that call left. */
  ghost predicate ReapedBetween(start: Nonces, run: seq<Event>, i: nat, j: nat)
    requires i < j <= |run|
  {
    exists m :: i < m < j && Reaps(start, run, i, m)
  }

  predicate Reaps(start: Nonces, run: seq<Event>, i: nat, m: nat)
    requires i < m < |run|
  {
    && run[m].request.key == run[i].request.key && ConsumesAt(start, run, m)
    && run[m].context.now > run[i].context.now + WINDOW
  }

  predicate ReusedAt(start: Nonces, run: seq<Event>, i: nat, m: nat)
    requires i < m < |run|
  {
    SameNonce(run[i].request, run[m].request) && ConsumesAt(start, run, m)
  }

  /** While its nonce is not consumed again, what a call left in the ledger is there until it is reaped. */
  lemma {:induction false} NonceStaysIff(start: Nonces, run: seq<Event>, i: nat, j: nat)
    requires i < j <= |run| && ConsumesAt(start, run, i)
    requires forall m :: i < m < j ==> !ReusedAt(start, run, i, m)
    ensures var n, ledger := (run[i].request.key, run[i].request.message.nonce), Ledger(start, run, j);
            && (n in ledger <==> !ReapedBetween(start, run, i, j))
            && (n in ledger ==> ledger[n] == run[i].context.now + WINDOW)
    decreases j
  {
    if j > i + 1 {
      NonceStaysIff(start, run, i, j - 1);
      assert !ReusedAt(start, run, i, j - 1);
      assert ReapedBetween(start, run, i, j) <==> ReapedBetween(start, run, i, j - 1) || Reaps(start, run, i, j - 1);
    }
  }

  /** Whatever the clocks do: until its next use, a nonce is consumed again exactly by a request that passes the
      checks and comes more than a window later, or after another call of the key that did. */
  lemma ConsumedAgainIff(start: Nonces, run: seq<Event>, i: nat, j: nat)
    requires i < j < |run| && ConsumesAt(start, run, i) && SameNonce(run[i].request, run[j].request)
    requires forall m :: i < m < j ==> !ReusedAt(start, run, i, m)
    ensures ConsumesAt(start, run, j) <==>
              && Check(run[j].context, run[j].request).None?
              && (run[j].context.now > run[i].context.now + WINDOW || ReapedBetween(start, run, i, j))
  {
    NonceStaysIff(start, run, i, j);
  }

  /** So a request that is not dated ahead of its first acceptance is let through again exactly when its clock lags
      behind that of a call which reaped in between. */
  lemma OnTimeReplayIff(start: Nonces, run: seq<Event>, i: nat, j: nat)
    requires i < j < |run| && ConsumesAt(start, run, i) && SameNonce(run[i].request, run[j].request)
    requires forall m :: i < m < j ==> !ReusedAt(start, run, i, m)
    requires run[j].request.sentAt == run[i].request.sentAt
    requires run[i].request.sentAt.value <= run[i].context.now
    ensures ConsumesAt(start, run, j) <==>
            Check(run[j].context, run[j].request).None? && ReapedBetween(start, run, i, j)
  {
    ConsumedAgainIff(start, run, i, j);
  }

  /** With clocks in order, uses of a nonce are more than a window apart, however many requests come between. */
  lemma {:induction false} NonceSpacing(start: Nonces, run: seq<Event>, i: nat, j: nat)
    requires ClockRuns(run) && i < j < |run| && SameNonce(run[i].request, run[j].request)
    requires ConsumesAt(start, run, i) && ConsumesAt(start, run, j)
    ensures run[j].context.now > run[i].context.now + WINDOW
    decreases j - i
  {
    if m :| i < m < j && ReusedAt(start, run, i, m) {
      NonceSpacing(start, run, i, m);
    } else {
      ConsumedAgainIff(start, run, i, j);
      if ReapedBetween(start, run, i, j) {
        var m :| i < m < j && Reaps(start, run, i, m);
        assert run[m].context.now <= run[j].context.now;
      }
    }
  }

  // ----- One signature, however it is presented -----

  /** A timestamp always reads as the same time; how it is read does not matter. */
  ghost predicate Dated(run: seq<Event>, read: string -> Option<Time>) {
    forall i :: 0 <= i < |run| ==> run[i].request.sentAt == read(run[i].request.message.timestamp)
  }

  predicate SamePresented(a: Request, b: Request) {
    a.key == b.key && a.signature == b.signature
  }

  /** Two accepted requests with one signature differ at most in the case of the verb. */
  lemma AcceptedAlike(start: Nonces, run: seq<Event>, read: string -> Option<Time>, i: nat, j: nat)
    requires Dated(run, read) && i < |run| && j < |run| && SamePresented(run[i].request, run[j].request)
    requires Separable(run[i].request.message, run[j].request.message)
    requires AcceptedAt(start, run, i) && AcceptedAt(start, run, j)
    ensures SameNonce(run[i].request, run[j].request) && run[i].request.sentAt == run[j].request.sentAt
  {
    var a, b := run[i].request.message, run[j].request.message;
    assert SigningString(a) == SigningString(b);
    SeparableAgree(a, b);
  }

  /** A signature accepted twice belongs to a request dated ahead of the clock that first accepted it. */
  lemma AcceptedOnce(start: Nonces, run: seq<Event>, read: string -> Option<Time>, i: nat, j: nat)
    requires ClockRuns(run) && Dated(run, read) && i < j < |run|
    requires SamePresented(run[i].request, run[j].request)
    requires Separable(run[i].request.message, run[j].request.message)
    requires AcceptedAt(start, run, i) && AcceptedAt(start, run, j)
    ensures run[i].request.sentAt.value > run[i].context.now
  {
    AcceptedAlike(start, run, read, i, j);
    NonceSpacing(start, run, i, j);
  }

  /** No signature is accepted three times. */
  lemma AcceptedAtMostTwice(start: Nonces, run: seq<Event>, read: string -> Option<Time>, i: nat, j: nat, k: nat)
    requires ClockRuns(run) && Dated(run, read) && i < j < k < |run|
    requires SamePresented(run[i].request, run[j].request) && SamePresented(run[i].request, run[k].request)
    requires Separable(run[i].request.message, run[j].request.message)
    requires Separable(run[i].request.message, run[k].request.message)
    ensures !(AcceptedAt(start, run, i) && AcceptedAt(start, run, j) && AcceptedAt(start, run, k))
  {
    if AcceptedAt(start, run, i) && AcceptedAt(start, run, j) && AcceptedAt(start, run, k) {
      AcceptedAlike(start, run, read, i, j);
      AcceptedAlike(start, run, read, i, k);
      NonceSpacing(start, run, i, j);
      NonceSpacing(start, run, j, k);
    }
  }

  /** The grant can still authenticate this request at `now`. */
  predicate Usable(c: Context, r: Request) {
    && r.key in c.grants && c.grants[r.key].revokedAt.None?
    && (c.grants[r.key].expiresAt.Some? ==> c.now < c.grants[r.key].expiresAt.value)
    && c.grants[r.key].agent in c.subjects
    && r.signature == Mac(c.grants[r.key].secret, SigningString(r.message))
  }

  /** The second presentation of an accepted request passes exactly between the end of its nonce's window
      and the end of its own. */
  lemma ReplayPassesIff(nonces: Nonces, first: Context, second: Context, r: Request)
    requires Verdict(nonces, first, r).Accepted? && first.now <= second.now && Usable(second, r)
    ensures Verdict(NoncesAfter(nonces, first, r), second, r).Accepted? <==>
            first.now + WINDOW < second.now <= r.sentAt.value + WINDOW
  {
  }

  /** So an accepted request can be replayed at some later time if and only if it was dated ahead and its
      grant outlives the nonce's window. */
  lemma ReplayableIffDatedAhead(nonces: Nonces, first: Context, r: Request)
    requires Verdict(nonces, first, r).Accepted?
    ensures (exists now :: first.now <= now && Verdict(NoncesAfter(nonces, first, r), first.(now := now), r).Accepted?)
            <==> r.sentAt.value > first.now
                 && (first.grants[r.key].expiresAt.Some? ==>
                      first.now + WINDOW + 1 < first.grants[r.key].expiresAt.value)
  {
    var soonest := first.now + WINDOW + 1;
    if Usable(first.(now := soonest), r) {
      ReplayPassesIff(nonces, first, first.(now := soonest), r);
    }
    forall now | first.now <= now && Verdict(NoncesAfter(nonces, first, r), first.(now := now), r).Accepted?
      ensures soonest <= now <= r.sentAt.value + WINDOW
    {
      ReplayPassesIff(nonces, first, first.(now := now), r);
    }
  }

  /** The clock assumption is needed: a call that read its clock early and reaches the ledger after another
      call has reaped with a later clock gets a second acceptance, with nothing dated ahead. */
  lemma StaleClockAdmitsReplay(g: Grant, a: Message, b: Message) returns (run: seq<Event>)
    requires g.revokedAt.None? && g.expiresAt.None?
    requires a.nonce != b.nonce && 0 < |a.nonce| <= MAX_NONCE && 0 < |b.nonce| <= MAX_NONCE
    ensures |run| == 3 && !ClockRuns(run)
    ensures run[0].request == run[2].request && run[0].request.sentAt == Some(run[0].context.now)
    ensures forall i :: 0 <= i < 3 ==> AcceptedAt(map[], run, i)
  {
    var grants: map<KeyId, Grant> := map[0 := g];
    var at := (now: Time) => Context(grants, {g.agent}, now);
    var r := Request(0, a, Some(0), Mac(g.secret, SigningString(a)));
    var other := Request(0, b, Some(WINDOW + 1), Mac(g.secret, SigningString(b)));
    run := [Event(at(0), r), Event(at(WINDOW + 1), other), Event(at(10), r)];
    assert run[1].context.now > run[2].context.now;
    assert Ledger(map[], run, 0) == map[];
    assert Ledger(map[], run, 1) == map[(0, a.nonce) := WINDOW];
    assert Ledger(map[], run, 2) == map[(0, b.nonce) := WINDOW + 1 + WINDOW];
  }

  // ----- The service -----

  class RequestVerifier {
    var grants: map<KeyId, Grant>
    var subjects: set<AgentId>
    var nonces: Nonces

    constructor (grants: map<KeyId, Grant>, subjects: set<AgentId>)
      ensures this.grants == grants && this.subjects == subjects && nonces == map[]
    {
      this.grants, this.subjects, nonces := grants, subjects, map[];
    }

    method Verify(r: Request, now: Time) returns (outcome: Outcome)
      modifies this`nonces
      ensures outcome == Verdict(old(nonces), Context(grants, subjects, now), r)
      ensures nonces == NoncesAfter(old(nonces), Context(grants, subjects, now), r)
    {
      if r.key !in grants {
        return Denied(SignatureInvalid);
      }
      var grant := grants[r.key];
      if grant.revokedAt.Some? {
        return Denied(GrantRevoked);
      }
      if grant.expiresAt.Some? && grant.expiresAt.value <= now {
        return Denied(GrantExpired);
      }
      if r.sentAt.None? {
        return Denied(SignatureInvalid);
      }
      var drift := now - r.sentAt.value;
      if drift > WINDOW || -drift > WINDOW {
        return Denied(TimestampExpired);
      }
      if r.message.nonce == "" || |r.message.nonce| > MAX_NONCE {
        return Denied(SignatureInvalid);
      }
      if r.signature != Mac(grant.secret, SigningString(r.message)) {
        return Denied(SignatureInvalid);
      }
      var consumed := ConsumeNonce(r.key, r.message.nonce, now);
      if !consumed {
        return Denied(ReplayDetected);
      }
      if grant.agent !in subjects {
        return Denied(SubjectNotFound);
      }
      return Accepted(r.key, grant.agent);
    }

    /** Reap and insert in one transaction; the unique constraint undoes both. */
    method ConsumeNonce(key: KeyId, nonce: string, now: Time) returns (consumed: bool)
      modifies this`nonces
      ensures consumed <==> (key, nonce) !in old(nonces) || old(nonces)[(key, nonce)] < now
      ensures !consumed ==> nonces == old(nonces)
      ensures consumed ==> nonces == Reaped(old(nonces), key, now)[(key, nonce) := now + WINDOW]
    {
      var before := nonces;
      nonces := Reaped(nonces, key, now);
      if (key, nonce) in nonces {
        nonces := before;
        return false;
      }
      nonces := nonces[(key, nonce) := now + WINDOW];
      return true;
    }
  }
}
