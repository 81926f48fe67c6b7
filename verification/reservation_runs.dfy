/** Interleavings of the ledger's operations (backend/app/finops/reservations.py:203-360).
    `reserve` is three steps under the budget row's lock; a settlement is a SELECT and, later, a commit that
    updates the selected rows by primary key without looking at their status again. */
module ReservationRuns {
  import opened Wrappers
  import opened Reservations

  type Caller = nat

  datatype Claim = Claim(budget: BudgetId, execution: Execution, estimate: real, key: PeriodKey)

  /** Where one call stands between two of its database statements. */
  datatype Call =
    | Waiting(claim: Claim)
    | Locked(claim: Claim)
    | Weighed(claim: Claim, committed: real)
    | Selected(settlement: Settlement, targets: set<nat>)

  datatype World = World(
    budgets: map<BudgetId, Budget>, rows: seq<Row>, locks: map<BudgetId, Caller>, calls: map<Caller, Call>)

  datatype Action =
    | StartReserve(caller: Caller, claim: Claim)
    | Lock(caller: Caller)
    | Weigh(caller: Caller)
    | Finish(caller: Caller)
    | StartSettle(caller: Caller, settlement: Settlement)
    | Commit(caller: Caller)

  ghost predicate Enabled(w: World, a: Action) {
    match a
    case StartReserve(c, claim) => c !in w.calls && claim.estimate >= 0.0
    case Lock(c) => c in w.calls && w.calls[c].Waiting? && w.calls[c].claim.budget !in w.locks
    case Weigh(c) => c in w.calls && w.calls[c].Locked?
    case Finish(c) => c in w.calls && w.calls[c].Weighed?
    case StartSettle(c, s) => c !in w.calls && (s.Reconcile? ==> s.actual.GetOr(0.0) >= 0.0)
    case Commit(c) => c in w.calls && w.calls[c].Selected?
  }

  function Targets(rows: seq<Row>, s: Settlement): set<nat> {
    set i: nat | i < |rows| && Selects(s, rows[i])
  }

  function Overwritten(rows: seq<Row>, s: Settlement, targets: set<nat>): seq<Row> {
    seq(|rows|, i requires 0 <= i < |rows| => if i in targets then Close(s, rows[i]) else rows[i])
  }

  predicate Inserts(w: World, c: Caller)
    requires c in w.calls && w.calls[c].Weighed?
  {
    var claim := w.calls[c].claim;
    && claim.budget in w.budgets && w.calls[c].committed + claim.estimate <= w.budgets[claim.budget].limit
    && Existing(w.rows, claim.budget, claim.execution.id).None?
  }

  ghost function Next(w: World, a: Action): World
    requires Enabled(w, a)
  {
    match a
    case StartReserve(c, claim) => w.(calls := w.calls[c := Waiting(claim)])
    case Lock(c) =>
      var claim := w.calls[c].claim;
      if claim.budget !in w.budgets then w.(calls := w.calls - {c})
      else w.(locks := w.locks[claim.budget := c], calls := w.calls[c := Locked(claim)])
    case Weigh(c) =>
      var claim := w.calls[c].claim;
      w.(calls := w.calls[c := Weighed(claim, Committed(w.rows, claim.budget, claim.key))])
    case Finish(c) =>
      // Rolled back when the hold does not fit or the unique index refuses it; the lock goes either way.
      var claim := w.calls[c].claim;
      var done := w.(locks := w.locks - {claim.budget}, calls := w.calls - {c});
      if Inserts(w, c) then done.(rows := w.rows + [RowFor(claim)]) else done
    case StartSettle(c, s) => w.(calls := w.calls[c := Selected(s, Targets(w.rows, s))])
    case Commit(c) =>
      // The unique index also guards this commit: a violation raises and changes nothing.
      var rows := Overwritten(w.rows, w.calls[c].settlement, w.calls[c].targets);
      w.(rows := if UniqueLive(rows) then rows else w.rows, calls := w.calls - {c})
  }

  /** The rows a commit is about to write are still as its SELECT found them. */
  ghost predicate Fresh(w: World, a: Action)
    requires Enabled(w, a)
  {
    a.Commit? ==> forall i: nat :: i in w.calls[a.caller].targets && i < |w.rows| ==> w.rows[i].status == Reserved
  }

  // ----- Late commits -----

  function SpentBy(s: Settlement): real {
    if s.Reconcile? then s.actual.GetOr(0.0) else 0.0
  }

  /** What a row charges its budget once this spend is recorded on it, its hold being the cap. */
  function Capped(r: Row, spent: real): real {
    if spent <= r.held then spent else r.held
  }

  /** The row is still open, or is not being reconciled, or has no more to charge: a released row has an empty
      hold or gets no spend, a reconciled one has used up its hold or gets no more than it has. */
  predicate HarmlessOn(s: Settlement, r: Row) {
    match r.status
    case Reserved => true
    case Released => !s.Reconcile? || r.held <= 0.0 || SpentBy(s) <= 0.0
    case Reconciled => !s.Reconcile? || r.actual.GetOr(0.0) >= r.held || SpentBy(s) <= r.actual.GetOr(0.0)
  }

  ghost predicate Harmless(w: World, a: Action)
    requires Enabled(w, a)
  {
    a.Commit? ==>
      forall i: nat :: i in w.calls[a.caller].targets && i < |w.rows| ==>
        HarmlessOn(w.calls[a.caller].settlement, w.rows[i])
  }

  /** A late commit raises a row's charge exactly when it is not harmless. */
  lemma ChargeGrowsIff(s: Settlement, r: Row)
    requires r.held >= 0.0 && r.actual.GetOr(0.0) >= 0.0
    requires s.Reconcile? ==> s.actual.GetOr(0.0) >= 0.0
    ensures Weight(Close(s, r), Charged) > Weight(r, Charged) <==> !HarmlessOn(s, r)
    ensures Weight(Close(s, r), Held) <= Weight(r, Held)
  {
  }

  /** What a commit will add to a bucket's charge, read off the selected rows as they stand before it. */
  function Growth(rows: seq<Row>, s: Settlement, targets: set<nat>, b: BudgetId, k: PeriodKey): real {
    if rows == [] then 0.0
    else
      var i, r := |rows| - 1, rows[|rows| - 1];
      Growth(rows[..i], s, targets, b, k)
      + if i in targets && r.budget == b && r.key == k
        then (if s.Reconcile? then Capped(r, SpentBy(s)) else 0.0) - Weight(r, Charged)
        else 0.0
  }

  lemma {:induction false} GrowthIsExact(rows: seq<Row>, s: Settlement, targets: set<nat>, b: BudgetId, k: PeriodKey)
    ensures Total(Overwritten(rows, s, targets), b, k, Charged)
            == Total(rows, b, k, Charged) + Growth(rows, s, targets, b, k)
  {
    if rows != [] {
      var i := |rows| - 1;
      GrowthIsExact(rows[..i], s, targets, b, k);
      assert Overwritten(rows, s, targets)[..i] == Overwritten(rows[..i], s, targets);
    }
  }

  /** Every budget's committed money stays within its limit plus what was spent beyond the holds. */
  ghost predicate WithinLimits(w: World) {
    forall b, k :: b in w.budgets ==> Committed(w.rows, b, k) <= w.budgets[b].limit + Total(w.rows, b, k, Overrun)
  }

  lemma WithinLimitsIff(w: World)
    ensures WithinLimits(w) <==> Bounded(w, Charged)
  {
    forall b, k
      ensures Committed(w.rows, b, k) == Total(w.rows, b, k, Charged) + Total(w.rows, b, k, Overrun)
    {
      CommittedSplit(w.rows, b, k);
    }
    if WithinLimits(w) {
      forall b, k | b in w.budgets ensures Total(w.rows, b, k, Charged) <= w.budgets[b].limit {
        assert Committed(w.rows, b, k) <= w.budgets[b].limit + Total(w.rows, b, k, Overrun);
      }
    }
  }

  ghost predicate FitsBeside(w: World, s: Settlement, targets: set<nat>) {
    forall b, k :: b in w.budgets ==>
      Total(w.rows, b, k, Charged) + Growth(w.rows, s, targets, b, k) <= w.budgets[b].limit
  }

  lemma OverwrittenBoundedIff(w: World, s: Settlement, targets: set<nat>)
    ensures Bounded(w.(rows := Overwritten(w.rows, s, targets)), Charged) <==> FitsBeside(w, s, targets)
  {
    var rows := Overwritten(w.rows, s, targets);
    var w' := w.(rows := rows);
    if Bounded(w', Charged) {
      forall b, k | b in w.budgets
        ensures Total(w.rows, b, k, Charged) + Growth(w.rows, s, targets, b, k) <= w.budgets[b].limit
      {
        GrowthIsExact(w.rows, s, targets, b, k);
        assert Total(w'.rows, b, k, Charged) <= w'.budgets[b].limit;
      }
    }
    if FitsBeside(w, s, targets) {
      forall b, k | b in w'.budgets ensures Total(w'.rows, b, k, Charged) <= w'.budgets[b].limit {
        GrowthIsExact(w.rows, s, targets, b, k);
      }
    }
  }

  /** A commit that the unique index lets through keeps the limits exactly when, in every bucket, what is charged
      already and what the selected rows will add still fit together. */
  lemma CommitKeepsLimitIff(w: World, a: Action)
    requires Enabled(w, a) && a.Commit? && WithinLimits(w)
    ensures var s, targets := w.calls[a.caller].settlement, w.calls[a.caller].targets;
            WithinLimits(Next(w, a)) <==>
              (UniqueLive(Overwritten(w.rows, s, targets)) ==> FitsBeside(w, s, targets))
  {
    var s, targets := w.calls[a.caller].settlement, w.calls[a.caller].targets;
    var rows, w' := Overwritten(w.rows, s, targets), Next(w, a);
    WithinLimitsIff(w);
    WithinLimitsIff(w');
    OverwrittenBoundedIff(w, s, targets);
    if UniqueLive(rows) {
      assert w'.rows == rows && w'.budgets == w.budgets;
      assert Bounded(w', Charged) <==> Bounded(w.(rows := rows), Charged);
    } else {
      assert w'.rows == w.rows && w'.budgets == w.budgets;
    }
  }

  // ----- Invariant -----

  /** `m` is `Held` or `Charged`: the same argument bounds both, but only holds are bounded in every run. */
  ghost predicate Bounded(w: World, m: Measure) {
    forall b, k :: b in w.budgets ==> Total(w.rows, b, k, m) <= w.budgets[b].limit
  }

  /** A claimant between lock and insert owns the lock, and its bucket has only shrunk since it weighed. */
  ghost predicate CallSound(w: World, c: Caller, m: Measure)
    requires c in w.calls
  {
    match w.calls[c]
    case Waiting(claim) => claim.estimate >= 0.0
    case Locked(claim) => claim.estimate >= 0.0 && claim.budget in w.locks && w.locks[claim.budget] == c
    case Weighed(claim, committed) =>
      && claim.estimate >= 0.0 && claim.budget in w.locks && w.locks[claim.budget] == c
      && Total(w.rows, claim.budget, claim.key, m) <= committed
    case Selected(s, targets) =>
      && (s.Reconcile? ==> s.actual.GetOr(0.0) >= 0.0)
      && forall i :: i in targets ==> i < |w.rows|
  }

  ghost predicate Inv(w: World, m: Measure) {
    && (m == Held || m == Charged)
    && NonNegative(w.rows)
    && Bounded(w, m)
    && forall c :: c in w.calls ==> CallSound(w, c, m)
  }

  /** Nobody else can be weighing the budget whose lock the claimant holds. */
  lemma RowKeepsCallSound(w: World, a: Action, m: Measure, c: Caller)
    requires Inv(w, m) && Enabled(w, a) && a.Finish? && Inserts(w, a.caller)
    requires c in w.calls && c != a.caller
    ensures c in Next(w, a).calls && CallSound(Next(w, a), c, m)
  {
    assert CallSound(w, a.caller, m) && CallSound(w, c, m);
    assert Next(w, a).calls[c] == w.calls[c];
    if w.calls[c].Weighed? {
      var own, other := w.calls[a.caller].claim, w.calls[c].claim;
      assert other.budget != own.budget;
      TotalAppend(w.rows, RowFor(own), other.budget, other.key, m);
    }
  }

  lemma InsertKeepsInv(w: World, a: Action, m: Measure)
    requires Inv(w, m) && Enabled(w, a) && a.Finish?
    ensures Inv(Next(w, a), m)
  {
    var w' := Next(w, a);
    var claim := w.calls[a.caller].claim;
    assert CallSound(w, a.caller, m);
    if Inserts(w, a.caller) {
      forall b, k | b in w.budgets ensures Total(w'.rows, b, k, m) <= w.budgets[b].limit {
        TotalAppend(w.rows, RowFor(claim), b, k, m);
      }
      forall c | c in w'.calls ensures CallSound(w', c, m) { RowKeepsCallSound(w, a, m, c); }
    } else {
      forall c | c in w'.calls ensures CallSound(w', c, m) { assert CallSound(w, c, m); }
    }
  }

  /** No commit, however late, adds to a hold. */
  lemma CommitKeepsInv(w: World, a: Action, m: Measure)
    requires Inv(w, m) && Enabled(w, a) && a.Commit? && (m == Held || Harmless(w, a))
    ensures Inv(Next(w, a), m)
  {
    var w' := Next(w, a);
    assert CallSound(w, a.caller, m);
    forall i | 0 <= i < |w.rows| ensures Weight(w'.rows[i], m) <= Weight(w.rows[i], m) {
      ChargeGrowsIff(w.calls[a.caller].settlement, w.rows[i]);
    }
    forall b, k ensures Total(w'.rows, b, k, m) <= Total(w.rows, b, k, m) {
      TotalLe(w'.rows, w.rows, b, k, m);
    }
    forall c | c in w'.calls ensures CallSound(w', c, m) { assert CallSound(w, c, m); }
  }

  lemma ReadKeepsInv(w: World, a: Action, m: Measure)
    requires Inv(w, m) && Enabled(w, a) && !a.Finish? && !a.Commit?
    ensures Inv(Next(w, a), m)
  {
    var w' := Next(w, a);
    if a.Weigh? {
      HeldAtMostCharged(w.rows, w.calls[a.caller].claim.budget, w.calls[a.caller].claim.key);
    }
    assert a.caller in w.calls ==> CallSound(w, a.caller, m);
    forall c | c in w'.calls ensures CallSound(w', c, m) {
      assert c in w.calls ==> CallSound(w, c, m);
    }
  }

  lemma StepKeepsInv(w: World, a: Action, m: Measure)
    requires Inv(w, m) && Enabled(w, a) && (m == Held || Harmless(w, a))
    ensures Inv(Next(w, a), m)
  {
    if a.Finish? { InsertKeepsInv(w, a, m); }
    else if a.Commit? { CommitKeepsInv(w, a, m); }
    else { ReadKeepsInv(w, a, m); }
  }

  // ----- Runs -----

  ghost predicate Initial(w: World) {
    w.rows == [] && w.locks == map[] && w.calls == map[] && forall b :: b in w.budgets ==> w.budgets[b].limit >= 0.0
  }

  ghost predicate Runs(w: World, steps: seq<Action>)
    decreases steps
  {
    steps == [] || (Enabled(w, steps[0]) && Runs(Next(w, steps[0]), steps[1..]))
  }

  ghost function After(w: World, steps: seq<Action>): World
    requires Runs(w, steps)
    decreases steps
  {
    if steps == [] then w else After(Next(w, steps[0]), steps[1..])
  }

  /** A run all of whose commits are fresh. */
  ghost predicate FreshRuns(w: World, steps: seq<Action>)
    requires Runs(w, steps)
    decreases steps
  {
    steps == [] || (Fresh(w, steps[0]) && FreshRuns(Next(w, steps[0]), steps[1..]))
  }

  /** A run in which no commit raises the charge of a row that closed under it. */
  ghost predicate HarmlessRuns(w: World, steps: seq<Action>)
    requires Runs(w, steps)
    decreases steps
  {
    steps == [] || (Harmless(w, steps[0]) && HarmlessRuns(Next(w, steps[0]), steps[1..]))
  }

  lemma {:induction false} FreshIsHarmless(w: World, steps: seq<Action>)
    requires Runs(w, steps) && FreshRuns(w, steps)
    ensures HarmlessRuns(w, steps)
    decreases steps
  {
    if steps != [] {
      FreshIsHarmless(Next(w, steps[0]), steps[1..]);
    }
  }

  lemma {:induction false} RunKeepsInv(w: World, steps: seq<Action>, m: Measure)
    requires Inv(w, m) && Runs(w, steps) && (m == Held || HarmlessRuns(w, steps))
    ensures Inv(After(w, steps), m) && After(w, steps).budgets == w.budgets
    decreases steps
  {
    if steps != [] {
      StepKeepsInv(w, steps[0], m);
      RunKeepsInv(Next(w, steps[0]), steps[1..], m);
    }
  }

  /** However reserves, settlements and sweeps interleave, and however late any of them commits, the holds of a
      budget never exceed its limit. */
  lemma HoldsStayWithinLimit(w: World, steps: seq<Action>, b: BudgetId, k: PeriodKey)
    requires Initial(w) && Runs(w, steps) && b in w.budgets
    ensures Total(After(w, steps).rows, b, k, Held) <= w.budgets[b].limit
  {
    RunKeepsInv(w, steps, Held);
  }

  /** Committed money exceeds the limit by at most what reconciled executions spent beyond their own holds, in
      every run where no commit raises the charge of a row that closed under it. */
  lemma CommitmentsStayWithinLimit(w: World, steps: seq<Action>)
    requires Initial(w) && Runs(w, steps) && HarmlessRuns(w, steps)
    ensures WithinLimits(After(w, steps)) && After(w, steps).budgets == w.budgets
  {
    RunKeepsInv(w, steps, Charged);
    WithinLimitsIff(After(w, steps));
  }

  /** A commit fits beside what is charged already, and so does a hold at the moment it is inserted. */
  ghost predicate Fits(w: World, a: Action)
    requires Enabled(w, a)
  {
    match a
    case Commit(c) =>
      var s, targets := w.calls[c].settlement, w.calls[c].targets;
      UniqueLive(Overwritten(w.rows, s, targets)) ==> FitsBeside(w, s, targets)
    case Finish(c) =>
      var claim := w.calls[c].claim;
      Inserts(w, c) ==>
        Total(w.rows, claim.budget, claim.key, Charged) + claim.estimate <= w.budgets[claim.budget].limit
    case _ => true
  }

  lemma RowKeepsBoundIff(w: World, claim: Claim)
    requires Bounded(w, Charged) && claim.budget in w.budgets
    ensures Bounded(w.(rows := w.rows + [RowFor(claim)]), Charged) <==>
            Total(w.rows, claim.budget, claim.key, Charged) + claim.estimate <= w.budgets[claim.budget].limit
  {
    var w' := w.(rows := w.rows + [RowFor(claim)]);
    TotalAppend(w.rows, RowFor(claim), claim.budget, claim.key, Charged);
    if Total(w'.rows, claim.budget, claim.key, Charged) <= w.budgets[claim.budget].limit {
      forall b, k | b in w'.budgets ensures Total(w'.rows, b, k, Charged) <= w'.budgets[b].limit {
        TotalAppend(w.rows, RowFor(claim), b, k, Charged);
      }
    }
  }

  lemma InsertKeepsLimitIff(w: World, a: Action)
    requires Enabled(w, a) && a.Finish? && WithinLimits(w)
    ensures WithinLimits(Next(w, a)) <==> Fits(w, a)
  {
    var w', claim := Next(w, a), w.calls[a.caller].claim;
    WithinLimitsIff(w);
    WithinLimitsIff(w');
    if Inserts(w, a.caller) {
      RowKeepsBoundIff(w, claim);
      assert Bounded(w', Charged) <==> Bounded(w.(rows := w.rows + [RowFor(claim)]), Charged);
    }
  }

  lemma StepKeepsLimitIff(w: World, a: Action)
    requires Enabled(w, a) && WithinLimits(w)
    ensures WithinLimits(Next(w, a)) <==> Fits(w, a)
  {
    if a.Commit? { CommitKeepsLimitIff(w, a); }
    else if a.Finish? { InsertKeepsLimitIff(w, a); }
  }

  ghost predicate WithinLimitsThroughout(w: World, steps: seq<Action>)
    requires Runs(w, steps)
    decreases steps
  {
    WithinLimits(w) && (steps == [] || WithinLimitsThroughout(Next(w, steps[0]), steps[1..]))
  }

  ghost predicate FittingRuns(w: World, steps: seq<Action>)
    requires Runs(w, steps)
    decreases steps
  {
    steps == [] || (Fits(w, steps[0]) && FittingRuns(Next(w, steps[0]), steps[1..]))
  }

  /** A run keeps the limits at every step exactly when each of its commits and inserts fits when it happens. */
  lemma {:induction false} LimitsHoldIff(w: World, steps: seq<Action>)
    requires WithinLimits(w) && Runs(w, steps)
    ensures WithinLimitsThroughout(w, steps) <==> FittingRuns(w, steps)
    decreases steps
  {
    if steps != [] {
      StepKeepsLimitIff(w, steps[0]);
      if Fits(w, steps[0]) {
        LimitsHoldIff(Next(w, steps[0]), steps[1..]);
      }
    }
  }

  /** At most one unreleased row per budget and execution, even in runs with stale commits. */
  lemma {:induction false} OneLiveRow(w: World, steps: seq<Action>)
    requires UniqueLive(w.rows) && Runs(w, steps)
    ensures UniqueLive(After(w, steps).rows)
    decreases steps
  {
    if steps != [] {
      OneLiveRow(Next(w, steps[0]), steps[1..]);
    }
  }

  lemma {:induction false} RunsAppend(w: World, steps: seq<Action>, more: seq<Action>)
    requires Runs(w, steps) && Runs(After(w, steps), more)
    ensures Runs(w, steps + more) && After(w, steps + more) == After(After(w, steps), more)
    decreases |steps|
  {
    if steps == [] {
      assert steps + more == more;
    } else {
      var w' := FirstStep(w, steps, steps[1..] + more);
      RunsAppend(w', steps[1..], more);
      assert steps + more == [steps[0]] + (steps[1..] + more);
    }
  }

  /** The world after the first step, and how any other run goes on from it. */
  lemma FirstStep(w: World, steps: seq<Action>, rest: seq<Action>) returns (w': World)
    requires Runs(w, steps) && steps != []
    ensures Runs(w', steps[1..]) && After(w, steps) == After(w', steps[1..])
    ensures Runs(w', rest) ==> Runs(w, [steps[0]] + rest) && After(w, [steps[0]] + rest) == After(w', rest)
  {
    w' := Next(w, steps[0]);
    if Runs(w', rest) {
      StepThen(w, steps[0], rest);
    }
  }

  lemma StepThen(w: World, a: Action, rest: seq<Action>)
    requires Enabled(w, a) && Runs(Next(w, a), rest)
    ensures Runs(w, [a] + rest) && After(w, [a] + rest) == After(Next(w, a), rest)
  {
    assert ([a] + rest)[1..] == rest;
  }

  // ----- Row lifecycle -----

  ghost predicate RowsAdvance(before: seq<Row>, after: seq<Row>) {
    && |before| <= |after|
    && forall i :: 0 <= i < |before| ==> Advances(before[i], after[i])
  }

  /** A step respects the lifecycle exactly when its commit is fresh or the unique index throws it out,
      or it rewrites a closed row with the values the row already has. */
  lemma StepAdvancesIff(w: World, a: Action)
    requires Enabled(w, a)
    ensures Fresh(w, a) ==> RowsAdvance(w.rows, Next(w, a).rows)
    ensures RowsAdvance(w.rows, Next(w, a).rows) <==>
            (a.Commit? && UniqueLive(Overwritten(w.rows, w.calls[a.caller].settlement, w.calls[a.caller].targets)) ==>
               forall i: nat :: i in w.calls[a.caller].targets && i < |w.rows| ==>
                 w.rows[i].status == Reserved || Close(w.calls[a.caller].settlement, w.rows[i]) == w.rows[i])
  {
    if a.Commit? {
      var s, targets := w.calls[a.caller].settlement, w.calls[a.caller].targets;
      var rows := Overwritten(w.rows, s, targets);
      if UniqueLive(rows) && RowsAdvance(w.rows, rows) {
        forall i: nat | i in targets && i < |w.rows|
          ensures w.rows[i].status == Reserved || Close(s, w.rows[i]) == w.rows[i]
        {
          assert Advances(w.rows[i], rows[i]);
        }
      }
    }
  }

  /** Rows are never removed, and once closed a row keeps its values to the end of the run. */
  lemma {:induction false} RowsOnlyAdvance(w: World, steps: seq<Action>)
    requires Runs(w, steps) && FreshRuns(w, steps)
    ensures RowsAdvance(w.rows, After(w, steps).rows)
    decreases steps
  {
    if steps != [] {
      StepAdvancesIff(w, steps[0]);
      RowsOnlyAdvance(Next(w, steps[0]), steps[1..]);
    }
  }

  // ----- The ledger's methods are the uninterrupted runs -----

  function RowFor(claim: Claim): Row {
    NewRow(claim.budget, claim.execution, claim.estimate, claim.key)
  }

  function ReserveSteps(c: Caller, claim: Claim): seq<Action> {
    [StartReserve(c, claim), Lock(c), Weigh(c), Finish(c)]
  }

  /** Start, lock, weigh and finish, with nobody in between: the claim gets its row iff it fits and is new. */
  lemma ClaimIsARun(w: World, c: Caller, claim: Claim)
    requires c !in w.calls && claim.budget in w.budgets && claim.budget !in w.locks && claim.estimate >= 0.0
    ensures var steps := ReserveSteps(c, claim);
            var granted := Committed(w.rows, claim.budget, claim.key) + claim.estimate <= w.budgets[claim.budget].limit
                           && Existing(w.rows, claim.budget, claim.execution.id).None?;
            && Runs(w, steps)
            && After(w, steps) == if granted then w.(rows := w.rows + [RowFor(claim)]) else w
  {
    var w1 := Next(w, StartReserve(c, claim));
    var w2 := Next(w1, Lock(c));
    var w3 := Next(w2, Weigh(c));
    var w4 := Next(w3, Finish(c));
    assert w4.calls == w.calls && w4.locks == w.locks;
    FourSteps(w, w1, w2, w3, StartReserve(c, claim), Lock(c), Weigh(c), Finish(c));
  }

  lemma ReserveIsARun(w: World, c: Caller, budget: Budget, execution: Execution, amount: Option<real>, at: Moment)
    requires c !in w.calls && budget.id !in w.locks && amount.GetOr(EstimateFor(budget)) >= 0.0
    requires Reserving(budget.mode) && budget.enabled && budget.id in w.budgets
    ensures var steps := ReserveSteps(c, Claim(budget.id, execution, amount.GetOr(EstimateFor(budget)),
                                               PeriodKeyOf(budget.period, execution.id, at)));
            && Runs(w, steps)
            && After(w, steps) == w.(rows := ReserveRows(w.budgets, w.rows, budget, execution, amount, at))
  {
    ClaimIsARun(w, c, Claim(budget.id, execution, amount.GetOr(EstimateFor(budget)),
                            PeriodKeyOf(budget.period, execution.id, at)));
  }

  lemma FourSteps(w: World, w1: World, w2: World, w3: World, a: Action, b: Action, c: Action, d: Action)
    requires Enabled(w, a) && w1 == Next(w, a) && Enabled(w1, b) && w2 == Next(w1, b)
    requires Enabled(w2, c) && w3 == Next(w2, c) && Enabled(w3, d)
    ensures Runs(w, [a, b, c, d]) && After(w, [a, b, c, d]) == Next(w3, d)
  {
    TwoSteps(w2, w3, c, d);
    TwoSteps(w, w1, a, b);
    RunsAppend(w, [a, b], [c, d]);
    assert [a, b] + [c, d] == [a, b, c, d];
  }

  lemma TwoSteps(w: World, w1: World, a: Action, b: Action)
    requires Enabled(w, a) && w1 == Next(w, a) && Enabled(w1, b)
    ensures Runs(w, [a, b]) && After(w, [a, b]) == Next(w1, b)
  {
    OneStep(w, a);
    OneStep(w1, b);
    RunsAppend(w, [a], [b]);
    assert [a] + [b] == [a, b];
  }

  lemma OneStep(w: World, a: Action)
    requires Enabled(w, a)
    ensures Runs(w, [a]) && After(w, [a]) == Next(w, a)
  {
    StepThen(w, a, []);
    assert [a] + [] == [a];
  }

  lemma SettleIsARun(w: World, c: Caller, s: Settlement)
    requires c !in w.calls && UniqueLive(w.rows) && (s.Reconcile? ==> s.actual.GetOr(0.0) >= 0.0)
    ensures var steps := [StartSettle(c, s), Commit(c)];
            Runs(w, steps) && After(w, steps) == w.(rows := Settled(w.rows, s))
  {
    assert Overwritten(w.rows, s, Targets(w.rows, s)) == Settled(w.rows, s);
    var w1 := Next(w, StartSettle(c, s));
    SettledStaysUnique(w.rows, s);
    assert Next(w1, Commit(c)).calls == w.calls;
    TwoSteps(w, w1, StartSettle(c, s), Commit(c));
  }

  lemma SettledStaysUnique(rows: seq<Row>, s: Settlement)
    requires UniqueLive(rows)
    ensures UniqueLive(Settled(rows, s))
  {
  }

  // ----- Why late reconciles matter -----

  /** One bucket: a first execution holds part of the limit, a second one will claim all of it. */
  datatype Race = Race(budget: BudgetId, key: PeriodKey, limit: real, held: real, spend: real) {
    ghost predicate Valid() {
      0.0 < held <= limit && spend > 0.0
    }

    function First(): Claim { Claim(budget, Execution(1, 0), held, key) }

    function Second(): Claim { Claim(budget, Execution(2, 0), limit, key) }

    function Late(): Settlement { Reconcile(1, Some(spend)) }

    function Swept(): Row { Close(Sweep(None, {1}), RowFor(First())) }

    function Revived(): Row { Close(Late(), Swept()) }
  }

  lemma TotalOfTwo(r: Row, q: Row, b: BudgetId, k: PeriodKey, m: Measure)
    ensures Total([r], b, k, m) == Part(r, b, k, m)
    ensures Total([r, q], b, k, m) == Part(r, b, k, m) + Part(q, b, k, m)
  {
    TotalAppend([], r, b, k, m);
    TotalAppend([r], q, b, k, m);
    assert [] + [r] == [r] && [r] + [q] == [r, q];
  }

  /** The second claim fits once the first hold is swept. */
  lemma SecondClaims(w: World, x: Race)
    requires x.Valid() && x.budget in w.budgets && w.budgets[x.budget].limit == x.limit
    requires w.rows == [x.Swept()] && 2 !in w.calls && w.locks == map[]
    ensures var steps := ReserveSteps(2, x.Second());
            Runs(w, steps) && After(w, steps) == w.(rows := [x.Swept(), RowFor(x.Second())])
  {
    TotalOfTwo(x.Swept(), x.Swept(), x.budget, x.key, Held);
    TotalOfTwo(x.Swept(), x.Swept(), x.budget, x.key, Spent);
    assert Existing([x.Swept()], x.budget, 2).None?;
    ClaimIsARun(w, 2, x.Second());
    assert [x.Swept()] + [RowFor(x.Second())] == [x.Swept(), RowFor(x.Second())];
  }

  /** The budget is free again, a late settlement still has the released row selected. */
  lemma SweptUnderASettlement(w: World, x: Race)
    requires x.Valid() && w.rows == [RowFor(x.First())] && w.calls == map[] && w.locks == map[]
    ensures var steps := [StartSettle(3, x.Late()), StartSettle(4, Sweep(None, {1})), Commit(4)];
            && Runs(w, steps)
            && After(w, steps) == w.(rows := [x.Swept()], calls := map[3 := Selected(x.Late(), {0})])
  {
    var sweep := Sweep(None, {1});
    var a, b, c := StartSettle(3, x.Late()), StartSettle(4, sweep), Commit(4);
    assert Targets(w.rows, x.Late()) == {0} == Targets(w.rows, sweep);
    var w1 := Next(w, a);
    var w2 := Next(w1, b);
    assert Overwritten(w.rows, sweep, {0}) == [x.Swept()];
    assert Next(w2, c).calls == map[3 := Selected(x.Late(), {0})];
    TwoSteps(w, w1, a, b);
    OneStep(w2, c);
    RunsAppend(w, [a, b], [c]);
    assert [a, b] + [c] == [a, b, c];
  }

  /** The late reconcile writes over the released row and charges the bucket twice. */
  lemma RevivedRowOvercommits(w: World, x: Race)
    requires x.Valid() && w.rows == [x.Swept(), RowFor(x.Second())]
    requires 3 in w.calls && w.calls[3] == Selected(x.Late(), {0})
    ensures Runs(w, [Commit(3)])
    ensures var rows := After(w, [Commit(3)]).rows;
            Committed(rows, x.budget, x.key) > x.limit + Total(rows, x.budget, x.key, Overrun)
  {
    var rows := [x.Revived(), RowFor(x.Second())];
    assert Overwritten(w.rows, x.Late(), {0}) == rows;
    assert UniqueLive(rows);
    OneStep(w, Commit(3));
    TotalOfTwo(rows[0], rows[1], x.budget, x.key, Charged);
    CommittedSplit(rows, x.budget, x.key);
  }

  lemma UpToTheLateCommit(w: World, x: Race) returns (steps: seq<Action>)
    requires Initial(w) && x.Valid() && x.budget in w.budgets && w.budgets[x.budget].limit == x.limit
    ensures Runs(w, steps)
    ensures After(w, steps) == w.(rows := [x.Swept()], calls := map[3 := Selected(x.Late(), {0})])
  {
    ClaimIsARun(w, 1, x.First());
    var held := w.(rows := [RowFor(x.First())]);
    assert [] + [RowFor(x.First())] == [RowFor(x.First())];
    SweptUnderASettlement(held, x);
    var settle := [StartSettle(3, x.Late()), StartSettle(4, Sweep(None, {1})), Commit(4)];
    RunsAppend(w, ReserveSteps(1, x.First()), settle);
    steps := ReserveSteps(1, x.First()) + settle;
  }

  lemma FromThereOn(w: World, x: Race) returns (steps: seq<Action>)
    requires x.Valid() && x.budget in w.budgets && w.budgets[x.budget].limit == x.limit && w.locks == map[]
    requires w.rows == [x.Swept()] && w.calls == map[3 := Selected(x.Late(), {0})]
    ensures Runs(w, steps)
    ensures var rows := After(w, steps).rows;
            Committed(rows, x.budget, x.key) > x.limit + Total(rows, x.budget, x.key, Overrun)
  {
    SecondClaims(w, x);
    RevivedRowOvercommits(After(w, ReserveSteps(2, x.Second())), x);
    RunsAppend(w, ReserveSteps(2, x.Second()), [Commit(3)]);
    steps := ReserveSteps(2, x.Second()) + [Commit(3)];
  }

  /** For every limit, hold and spend: a sweep and a reconcile select the same row; the sweep commits, its money is
      claimed by another execution, and the late reconcile brings the released row back. */
  lemma LateReconcileBreaksTheLimit(w: World, x: Race) returns (steps: seq<Action>)
    requires Initial(w) && x.Valid() && x.budget in w.budgets && w.budgets[x.budget].limit == x.limit
    ensures Runs(w, steps) && !WithinLimits(After(w, steps))
    ensures var rows := After(w, steps).rows;
            Committed(rows, x.budget, x.key) > x.limit + Total(rows, x.budget, x.key, Overrun)
  {
    var first := UpToTheLateCommit(w, x);
    var second := FromThereOn(After(w, first), x);
    RunsAppend(w, first, second);
    steps := first + second;
    BudgetsStay(w, steps);
  }

  lemma {:induction false} BudgetsStay(w: World, steps: seq<Action>)
    requires Runs(w, steps)
    ensures After(w, steps).budgets == w.budgets
    decreases steps
  {
    if steps != [] {
      BudgetsStay(Next(w, steps[0]), steps[1..]);
    }
  }
}
