/** Which budgets apply to an execution, in which order (backend/app/finops/budgets.py:28-92). */
module BudgetResolution {
  import opened Wrappers
  import opened Reservations

  datatype ExecutionScope = ExecutionScope(
    organization: OrgId, agent: Option<nat>, project: Option<nat>,
    environment: Option<string>, environmentId: Option<nat>, model: Option<string>)

  predicate Matches(scope: ExecutionScope, b: Budget) {
    match b.scopeType
    case OrganizationScope => true
    case AgentScope => b.scopeId.Some? && b.scopeId == scope.agent
    case ProjectScope => b.scopeId.Some? && b.scopeId == scope.project
    case EnvironmentScope => if b.scopeId.Some? then b.scopeId == scope.environmentId
                             else b.scopeValue.Some? && b.scopeValue == scope.environment
    case ModelScope => b.scopeValue.Some? && b.scopeValue == scope.model
  }

  predicate Applies(scope: ExecutionScope, b: Budget) {
    b.organization == scope.organization && b.enabled && Matches(scope, b)
  }

  function Specificity(t: ScopeType): nat {
    match t
    case AgentScope => 0
    case ModelScope => 1
    case EnvironmentScope => 2
    case ProjectScope => 3
    case OrganizationScope => 4
  }

  /** The sort key: specificity, then age, then identity. */
  predicate Precedes(a: Budget, b: Budget) {
    var (sa, sb) := (Specificity(a.scopeType), Specificity(b.scopeType));
    sa < sb || (sa == sb && (a.createdAt < b.createdAt || (a.createdAt == b.createdAt && a.id <= b.id)))
  }

  function Insert(b: Budget, sorted: seq<Budget>): seq<Budget> {
    if sorted == [] || Precedes(b, sorted[0]) then [b] + sorted else [sorted[0]] + Insert(b, sorted[1..])
  }

  function Resolve(table: seq<Budget>, scope: ExecutionScope): seq<Budget> {
    if table == [] then []
    else if Applies(scope, table[0]) then Insert(table[0], Resolve(table[1..], scope))
    else Resolve(table[1..], scope)
  }

  predicate Ordered(bs: seq<Budget>) {
    forall i, j :: 0 <= i < j < |bs| ==> Precedes(bs[i], bs[j])
  }

  predicate DistinctIds(bs: seq<Budget>) {
    forall i, j :: 0 <= i < j < |bs| ==> bs[i].id != bs[j].id
  }

  lemma {:induction false} InsertMembers(b: Budget, bs: seq<Budget>)
    ensures forall x :: x in Insert(b, bs) <==> x == b || x in bs
    ensures |Insert(b, bs)| == |bs| + 1
  {
    if bs != [] && !Precedes(b, bs[0]) {
      InsertMembers(b, bs[1..]);
      assert bs == [bs[0]] + bs[1..];
    }
  }

  lemma {:induction false} InsertSorts(b: Budget, bs: seq<Budget>)
    requires Ordered(bs)
    ensures Ordered(Insert(b, bs))
    ensures DistinctIds(bs) && (forall x :: x in bs ==> x.id != b.id) ==> DistinctIds(Insert(b, bs))
  {
    if bs != [] && !Precedes(b, bs[0]) {
      InsertSorts(b, bs[1..]);
      InsertMembers(b, bs[1..]);
      var rest := Insert(b, bs[1..]);
      assert forall k :: 0 <= k < |rest| ==> rest[k] in rest;
      assert forall x :: x in bs[1..] ==> x in bs;
    }
  }

  /** Exactly the enabled, matching budgets of the organization, each once, most specific first. */
  lemma {:induction false} ResolveExact(table: seq<Budget>, scope: ExecutionScope)
    ensures Ordered(Resolve(table, scope))
    ensures forall b :: b in Resolve(table, scope) <==> b in table && Applies(scope, b)
    ensures DistinctIds(table) ==> DistinctIds(Resolve(table, scope))
  {
    if table != [] {
      ResolveExact(table[1..], scope);
      assert table == [table[0]] + table[1..];
      if Applies(scope, table[0]) {
        InsertSorts(table[0], Resolve(table[1..], scope));
        InsertMembers(table[0], Resolve(table[1..], scope));
      }
      if DistinctIds(table) {
        forall x | x in table[1..] ensures x.id != table[0].id {
          var i :| 0 <= i < |table[1..]| && table[1..][i] == x;
          assert table[i + 1] == x;
        }
      }
    }
  }

  /** Which budgets apply, scope by scope: an organization's own and enabled ones, as far as they name what the
      execution has; an environment's id goes before its name. */
  lemma ResolvedIff(table: seq<Budget>, scope: ExecutionScope, b: Budget)
    ensures b in Resolve(table, scope) <==>
              && b in table && b.enabled && b.organization == scope.organization
              && (b.scopeType == AgentScope ==> b.scopeId.Some? && scope.agent == b.scopeId)
              && (b.scopeType == ProjectScope ==> b.scopeId.Some? && scope.project == b.scopeId)
              && (b.scopeType == EnvironmentScope && b.scopeId.Some? ==> scope.environmentId == b.scopeId)
              && (b.scopeType == EnvironmentScope && b.scopeId.None? ==>
                    b.scopeValue.Some? && scope.environment == b.scopeValue)
              && (b.scopeType == ModelScope ==> b.scopeValue.Some? && scope.model == b.scopeValue)
  {
    ResolveExact(table, scope);
  }

  /** In which order: an agent's budgets first, the organization's last, a model's before an environment's and that
      before a project's; within one kind the older first, and the smaller id among those of one age. */
  lemma ResolvedInOrder(table: seq<Budget>, scope: ExecutionScope, i: nat, j: nat)
    requires i < j < |Resolve(table, scope)|
    ensures var a, b := Resolve(table, scope)[i], Resolve(table, scope)[j];
            && (b.scopeType == AgentScope ==> a.scopeType == AgentScope)
            && (b.scopeType == ModelScope ==> a.scopeType == AgentScope || a.scopeType == ModelScope)
            && (b.scopeType == EnvironmentScope ==> a.scopeType != ProjectScope && a.scopeType != OrganizationScope)
            && (b.scopeType == ProjectScope ==> a.scopeType != OrganizationScope)
            && (a.scopeType == b.scopeType ==>
                  a.createdAt < b.createdAt || (a.createdAt == b.createdAt && a.id <= b.id))
  {
    ResolveExact(table, scope);
    assert Precedes(Resolve(table, scope)[i], Resolve(table, scope)[j]);
  }

  lemma TailMembers(xs: seq<Budget>)
    requires xs != [] && DistinctIds(xs)
    ensures forall b :: b in xs[1..] <==> b in xs && b != xs[0]
  {
    forall b | b in xs[1..] ensures b in xs && b != xs[0] {
      var k :| 0 <= k < |xs[1..]| && xs[1..][k] == b;
      assert xs[k + 1].id != xs[0].id;
    }
    assert xs == [xs[0]] + xs[1..];
  }

  /** The order is a function of the budgets alone: scanning the table differently changes nothing. */
  lemma {:induction false} OrderIsUnique(xs: seq<Budget>, ys: seq<Budget>)
    requires Ordered(xs) && Ordered(ys) && DistinctIds(xs) && DistinctIds(ys)
    requires forall b :: b in xs <==> b in ys
    ensures xs == ys
  {
    assert ys != [] ==> ys[0] in ys;
    if xs != [] {
      assert xs[0] in ys;
      var i :| 0 <= i < |ys| && ys[i] == xs[0];
      assert ys[0] in xs;
      var j :| 0 <= j < |xs| && xs[j] == ys[0];
      assert xs[0] == ys[0];
      TailMembers(xs);
      TailMembers(ys);
      OrderIsUnique(xs[1..], ys[1..]);
    }
  }
}

/** Reserve before the loop, settle after it (backend/app/finops/guard.py:49-174). */
module BudgetGuards {
  import opened Wrappers
  import opened Reservations
  import opened BudgetResolution

  datatype Constraint = Constraint(budget: BudgetId, mode: Mode, remaining: real, overThreshold: bool)

  function KeyFor(b: Budget, execution: Execution, at: Moment): PeriodKey {
    PeriodKeyOf(b.period, execution.id, at)
  }

  predicate Refused(rows: seq<Row>, b: Budget, execution: Execution, at: Moment) {
    Committed(rows, b.id, KeyFor(b, execution, at)) + EstimateFor(b) > b.limit
  }

  predicate TakesHold(rows: seq<Row>, b: Budget, execution: Execution, at: Moment) {
    && Reserving(b.mode)
    && !Refused(rows, b, execution, at)
    && Existing(rows, b.id, execution.id).None?
  }

  /** Headroom after this execution's own hold, judged against the ledger before `prepare`. */
  function Headroom(rows: seq<Row>, b: Budget, execution: Execution, at: Moment): real {
    var remaining := Remaining(rows, b, KeyFor(b, execution, at));
    if Refused(rows, b, execution, at) then (if remaining < 0.0 then remaining else 0.0)
    else if TakesHold(rows, b, execution, at) then remaining - EstimateFor(b)
    else remaining
  }

  function HoldOn(b: Budget, execution: Execution, at: Moment): Row {
    NewRow(b.id, execution, EstimateFor(b), KeyFor(b, execution, at))
  }

  function OwnHold(rows: seq<Row>, b: Budget, execution: Execution, at: Moment): seq<Row> {
    if TakesHold(rows, b, execution, at) then [HoldOn(b, execution, at)] else []
  }

  /** What `prepare` has to say about one reserving budget. */
  function Report(rows: seq<Row>, b: Budget, execution: Execution, at: Moment): Constraint {
    Constraint(b.id, b.mode, Headroom(rows, b, execution, at),
               Refused(rows, b, execution, at)
               || OverThreshold(rows + OwnHold(rows, b, execution, at), b, KeyFor(b, execution, at)))
  }

  /** Where a budget stands in a ledger. */
  function StandingOf(rows: seq<Row>, b: Budget, execution: Execution, at: Moment): Constraint {
    var k := KeyFor(b, execution, at);
    Constraint(b.id, b.mode, Remaining(rows, b, k), OverThreshold(rows, b, k))
  }

  /** The holds taken, each decided against the ledger as it was before `prepare`. */
  function Holds(rows: seq<Row>, bs: seq<Budget>, execution: Execution, at: Moment): seq<Row> {
    if bs == [] then []
    else Holds(rows, bs[..|bs| - 1], execution, at)
         + OwnHold(rows, bs[|bs| - 1], execution, at)
  }

  lemma {:induction false} HoldsNameTheirBudgets(rows: seq<Row>, bs: seq<Budget>, execution: Execution, at: Moment)
    ensures forall r :: r in Holds(rows, bs, execution, at) ==>
              exists b :: b in bs && TakesHold(rows, b, execution, at) && r == HoldOn(b, execution, at)
  {
    if bs != [] {
      HoldsNameTheirBudgets(rows, bs[..|bs| - 1], execution, at);
      assert bs == bs[..|bs| - 1] + [bs[|bs| - 1]];
    }
  }

  /** Rows of other budgets do not hide or replace this budget's live row. */
  lemma {:induction false} ExistingIgnores(rows: seq<Row>, more: seq<Row>, b: BudgetId, e: ExecutionId)
    requires forall r :: r in more ==> r.budget != b
    ensures Existing(rows + more, b, e) == Existing(rows, b, e)
  {
    if more == [] {
      assert rows + more == rows;
    } else {
      var front, last := more[..|more| - 1], more[|more| - 1];
      assert last in more;
      ExistingIgnores(rows, front, b, e);
      assert (rows + more)[..|rows + more| - 1] == rows + front;
    }
  }

  lemma OneMoreCounts(rows: seq<Row>, before: seq<Row>, own: seq<Row>, b: BudgetId, k: PeriodKey, m: Measure)
    requires |own| <= 1
    ensures Total(rows + (before + own), b, k, m)
            == Total(rows + before, b, k, m) + if own == [] then 0.0 else Part(own[0], b, k, m)
  {
    if own == [] {
      assert before + own == before;
    } else {
      assert rows + (before + own) == (rows + before) + [own[0]];
      TotalAppend(rows + before, own[0], b, k, m);
    }
  }

  /** What the first `n` budgets' holds add to the totals of budget `i`: its own hold, once it has been visited. */
  lemma {:induction false} HoldsCount(rows: seq<Row>, bs: seq<Budget>, n: nat, i: nat, execution: Execution, at: Moment,
                                      m: Measure)
    requires DistinctIds(bs) && n <= |bs| && i < |bs|
    ensures var k := KeyFor(bs[i], execution, at);
            Total(rows + Holds(rows, bs[..n], execution, at), bs[i].id, k, m)
            == Total(rows, bs[i].id, k, m)
               + if i < n && TakesHold(rows, bs[i], execution, at)
                 then Part(HoldOn(bs[i], execution, at), bs[i].id, k, m) else 0.0
  {
    if n == 0 {
      assert rows + [] == rows;
    } else {
      HoldsCount(rows, bs, n - 1, i, execution, at, m);
      assert bs[..n][..n - 1] == bs[..n - 1];
      OneMoreCounts(rows, Holds(rows, bs[..n - 1], execution, at), OwnHold(rows, bs[n - 1], execution, at),
                    bs[i].id, KeyFor(bs[i], execution, at), m);
    }
  }

  /** A budget that was visited and not refused stands as reported, whatever holds are taken after it. */
  lemma HeadroomIsFinal(rows: seq<Row>, bs: seq<Budget>, i: nat, n: nat, execution: Execution, at: Moment)
    requires DistinctIds(bs) && i < n <= |bs|
    requires Reserving(bs[i].mode) && !Refused(rows, bs[i], execution, at)
    ensures var after := rows + Holds(rows, bs[..n], execution, at);
            Report(rows, bs[i], execution, at) == StandingOf(after, bs[i], execution, at)
  {
    HoldsCount(rows, bs, n, i, execution, at, Held);
    HoldsCount(rows, bs, n, i, execution, at, Spent);
    OwnHoldCounts(rows, bs[i], execution, at, Held);
    OwnHoldCounts(rows, bs[i], execution, at, Spent);
  }

  lemma OwnHoldCounts(rows: seq<Row>, b: Budget, execution: Execution, at: Moment, m: Measure)
    ensures var k := KeyFor(b, execution, at);
            Total(rows + OwnHold(rows, b, execution, at), b.id, k, m)
            == Total(rows, b.id, k, m)
               + if TakesHold(rows, b, execution, at) then Part(HoldOn(b, execution, at), b.id, k, m) else 0.0
  {
    OneMoreCounts(rows, [], OwnHold(rows, b, execution, at), b.id, KeyFor(b, execution, at), m);
    assert rows + [] == rows && [] + OwnHold(rows, b, execution, at) == OwnHold(rows, b, execution, at);
  }

  lemma EarlierHoldsDoNotCount(rows: seq<Row>, bs: seq<Budget>, i: nat, execution: Execution, at: Moment)
    requires DistinctIds(bs) && i < |bs|
    ensures var before, b, k := rows + Holds(rows, bs[..i], execution, at), bs[i], KeyFor(bs[i], execution, at);
            && Committed(before, b.id, k) == Committed(rows, b.id, k)
            && Existing(before, b.id, execution.id) == Existing(rows, b.id, execution.id)
  {
    HoldsCount(rows, bs, i, i, execution, at, Held);
    HoldsCount(rows, bs, i, i, execution, at, Spent);
    HoldsNameTheirBudgets(rows, bs[..i], execution, at);
    ExistingIgnores(rows, Holds(rows, bs[..i], execution, at), bs[i].id, execution.id);
  }

  /** Reserving on the ledger as the earlier budgets left it does what the ledger before `prepare` says. */
  lemma ReserveTakesHold(budgets: map<BudgetId, Budget>, rows: seq<Row>, bs: seq<Budget>, i: nat,
                         execution: Execution, at: Moment)
    requires DistinctIds(bs) && i < |bs| && Reserving(bs[i].mode) && bs[i].enabled
    requires bs[i].id in budgets && budgets[bs[i].id] == bs[i]
    ensures var before := rows + Holds(rows, bs[..i], execution, at);
            var answer := ReserveAnswer(budgets, before, bs[i], execution, None, at);
            && ReserveRows(budgets, before, bs[i], execution, None, at)
               == rows + Holds(rows, bs[..i + 1], execution, at)
            && (if Refused(rows, bs[i], execution, at) then answer.NoHeadroom?
                else answer.AlreadyHeld? || answer.Granted?)
            && Remaining(before, bs[i], KeyFor(bs[i], execution, at))
               == Remaining(rows, bs[i], KeyFor(bs[i], execution, at))
  {
    var holds, own := Holds(rows, bs[..i], execution, at), OwnHold(rows, bs[i], execution, at);
    EarlierHoldsDoNotCount(rows, bs, i, execution, at);
    assert bs[..i + 1][..i] == bs[..i];
    assert Holds(rows, bs[..i + 1], execution, at) == holds + own;
    assert own == [] ==> rows + (holds + own) == rows + holds;
    assert own != [] ==> rows + (holds + own) == (rows + holds) + own;
  }

  /** The tightest constraint over the first `n` budgets, the earliest one on a tie. */
  ghost predicate Tightest(rows: seq<Row>, bs: seq<Budget>, n: nat, execution: Execution, at: Moment,
                           found: Option<Constraint>)
    requires n <= |bs|
  {
    match found
    case None => forall i :: 0 <= i < n ==> !Reserving(bs[i].mode)
    case Some(c) => exists i :: 0 <= i < n && IsTightest(rows, bs, n, execution, at, c, i)
  }

  ghost predicate IsTightest(rows: seq<Row>, bs: seq<Budget>, n: nat, execution: Execution, at: Moment,
                             c: Constraint, i: nat)
    requires i < n <= |bs|
  {
    && Reserving(bs[i].mode) && c == Report(rows, bs[i], execution, at)
    && forall j :: 0 <= j < n && Reserving(bs[j].mode) ==>
         && c.remaining <= Headroom(rows, bs[j], execution, at)
         && (j < i ==> c.remaining < Headroom(rows, bs[j], execution, at))
  }

  /** The figures of a standing. */
  lemma StandingMeans(rows: seq<Row>, b: Budget, execution: Execution, at: Moment)
    ensures var c, k := StandingOf(rows, b, execution, at), PeriodKeyOf(b.period, execution.id, at);
            && c.budget == b.id && c.mode == b.mode && c.remaining == b.limit - Committed(rows, b.id, k)
            && (c.overThreshold <==>
                  if b.limit > 0.0 then Committed(rows, b.id, k) * 100.0 >= b.limit * b.threshold as real
                  else b.threshold <= 100)
  {
    OverThresholdIff(rows, b, PeriodKeyOf(b.period, execution.id, at));
  }

  /** The reported constraint is true of the ledger that `prepare` leaves behind: it is where its budget stands
      after all holds, cut to at most zero and flagged when that budget refused. */
  lemma BindingIsFinal(rows: seq<Row>, bs: seq<Budget>, execution: Execution, at: Moment, c: Constraint)
    requires DistinctIds(bs) && Tightest(rows, bs, |bs|, execution, at, Some(c))
    ensures var after := rows + Holds(rows, bs, execution, at);
            exists i :: 0 <= i < |bs| && IsTightest(rows, bs, |bs|, execution, at, c, i)
                     && var standing := StandingOf(after, bs[i], execution, at);
                        c == if !Refused(rows, bs[i], execution, at) then standing
                             else standing.(remaining := if standing.remaining < 0.0 then standing.remaining else 0.0,
                                            overThreshold := true)
  {
    var i :| 0 <= i < |bs| && IsTightest(rows, bs, |bs|, execution, at, c, i);
    assert bs[..|bs|] == bs;
    if Refused(rows, bs[i], execution, at) {
      HoldsCount(rows, bs, |bs|, i, execution, at, Held);
      HoldsCount(rows, bs, |bs|, i, execution, at, Spent);
    } else {
      HeadroomIsFinal(rows, bs, i, |bs|, execution, at);
    }
    assert IsTightest(rows, bs, |bs|, execution, at, c, i);
  }

  /** A refusal anywhere leaves nothing to report above zero, and only a refusal reports below zero. */
  lemma RefusalShows(rows: seq<Row>, bs: seq<Budget>, execution: Execution, at: Moment, found: Option<Constraint>)
    requires Tightest(rows, bs, |bs|, execution, at, found)
    requires forall b :: b in bs ==> EstimateFor(b) >= 0.0
    ensures (exists b :: b in bs && Reserving(b.mode) && Refused(rows, b, execution, at))
            ==> found.Some? && found.value.remaining <= 0.0
    ensures found.Some? && found.value.remaining < 0.0
            ==> exists b :: b in bs && Reserving(b.mode) && Refused(rows, b, execution, at)
  {
    if b :| b in bs && Reserving(b.mode) && Refused(rows, b, execution, at) {
      var j :| 0 <= j < |bs| && bs[j] == b;
      assert found.Some?;
    }
    if found.Some? && found.value.remaining < 0.0 {
      var i :| 0 <= i < |bs| && IsTightest(rows, bs, |bs|, execution, at, found.value, i);
      assert bs[i] in bs;
    }
  }

  function Sum(xs: seq<Option<real>>): real {
    if xs == [] then 0.0 else Sum(xs[..|xs| - 1]) + xs[|xs| - 1].GetOr(0.0)
  }

  /** The execution's own figure when it has one, the transcript's sum otherwise. */
  function ActualSpend(cost: Option<real>, transcript: seq<Option<real>>): real {
    match cost
    case Some(c) => c
    case None => Sum(transcript)
  }

  function SettlementFor(e: ExecutionId, actual: real): Settlement {
    if actual > 0.0 then Reconcile(e, Some(actual)) else Release(e)
  }

  /** The figure on the execution counts alone, zero included; without one, what each turn of the transcript recorded
      is added up. */
  lemma SpendIsRecorded(cost: real, transcript: seq<Option<real>>, turn: Option<real>)
    ensures ActualSpend(Some(cost), transcript) == cost
    ensures ActualSpend(None, []) == 0.0
    ensures ActualSpend(None, transcript + [turn])
            == ActualSpend(None, transcript) + if turn.Some? then turn.value else 0.0
  {
    assert (transcript + [turn])[..|transcript|] == transcript;
  }

  /** Settling an execution: with positive spend its open holds are charged it, each, otherwise they are released; no
      other row changes. */
  lemma ExecutionSettled(rows: seq<Row>, e: ExecutionId, actual: real, i: nat)
    requires i < |rows|
    ensures var r, q := rows[i], Settled(rows, SettlementFor(e, actual))[i];
            q == if r.status != Reserved || r.execution != e then r
                 else if actual > 0.0 then r.(status := Reconciled, actual := Some(actual)) else r.(status := Released)
  {
    SettledRowByRow(rows, SettlementFor(e, actual), i);
  }

  class BudgetGuard {
    const ledger: ReservationLedger

    constructor (ledger: ReservationLedger)
      ensures this.ledger == ledger
    {
      this.ledger := ledger;
    }

    /** Asks one reserving budget for its estimate and reports where that leaves it. */
    method Hold(budgets: seq<Budget>, i: nat, execution: Execution, at: Moment, ghost rows: seq<Row>)
        returns (candidate: Constraint)
      requires DistinctIds(budgets) && i < |budgets| && Reserving(budgets[i].mode) && budgets[i].enabled
      requires budgets[i].id in ledger.budgets && ledger.budgets[budgets[i].id] == budgets[i]
      requires ledger.rows == rows + Holds(rows, budgets[..i], execution, at)
      modifies ledger`rows
      ensures ledger.rows == rows + Holds(rows, budgets[..i + 1], execution, at)
      ensures candidate == Report(rows, budgets[i], execution, at)
    {
      var budget := budgets[i];
      var before := Remaining(ledger.rows, budget, KeyFor(budget, execution, at));
      ReserveTakesHold(ledger.budgets, rows, budgets, i, execution, at);
      var answer := ledger.Reserve(budget, execution, None, at);
      if answer.AlreadyHeld? || answer.Granted? {
        HeadroomIsFinal(rows, budgets, i, i + 1, execution, at);
        return StandingOf(ledger.rows, budget, execution, at);
      } else {
        return Constraint(budget.id, budget.mode, if before < 0.0 then before else 0.0, true);
      }
    }

    /** Visits the budgets in order. One that only signals touches nothing. */
    method Visit(budgets: seq<Budget>, execution: Execution, at: Moment) returns (binding: Option<Constraint>)
      requires DistinctIds(budgets)
      requires forall i :: 0 <= i < |budgets| ==>
                 budgets[i].enabled && budgets[i].id in ledger.budgets && ledger.budgets[budgets[i].id] == budgets[i]
      modifies ledger`rows
      ensures ledger.rows == old(ledger.rows) + Holds(old(ledger.rows), budgets, execution, at)
      ensures Tightest(old(ledger.rows), budgets, |budgets|, execution, at, binding)
    {
      ghost var rows := ledger.rows;
      binding := None;
      for i := 0 to |budgets|
        invariant ledger.rows == rows + Holds(rows, budgets[..i], execution, at)
        invariant Tightest(rows, budgets, i, execution, at, binding)
      {
        if Reserving(budgets[i].mode) {
          var candidate := Hold(budgets, i, execution, at, rows);
          var replace := binding.None? || candidate.remaining < binding.value.remaining;
          KeepTightest(rows, budgets, i, execution, at, binding, candidate, replace);
          if replace {
            binding := Some(candidate);
          }
        } else {
          SkipSignalling(rows, budgets, i, execution, at, binding);
        }
      }
      assert budgets[..|budgets|] == budgets;
    }

    /** Visits every applicable budget, most specific first. */
    method Prepare(table: seq<Budget>, scope: ExecutionScope, execution: Execution, at: Moment)
      returns (binding: Option<Constraint>)
      requires DistinctIds(table)
      requires forall b :: b in table ==> b.id in ledger.budgets && ledger.budgets[b.id] == b
      modifies ledger`rows
      ensures ledger.rows == old(ledger.rows) + Holds(old(ledger.rows), Resolve(table, scope), execution, at)
      ensures Tightest(old(ledger.rows), Resolve(table, scope), |Resolve(table, scope)|, execution, at, binding)
    {
      var budgets := Resolve(table, scope);
      ResolveExact(table, scope);
      assert forall i :: 0 <= i < |budgets| ==> budgets[i] in budgets;
      binding := Visit(budgets, execution, at);
    }

    /** Spending nothing releases the holds; anything else charges it, failed or not. */
    method SettleExecution(execution: Execution, cost: Option<real>, transcript: seq<Option<real>>)
      modifies ledger`rows
      ensures ledger.rows == Settled(old(ledger.rows), SettlementFor(execution.id, ActualSpend(cost, transcript)))
    {
      var actual := ActualSpend(cost, transcript);
      if actual > 0.0 {
        var _ := ledger.Settle(Reconcile(execution.id, Some(actual)));
      } else {
        var _ := ledger.Settle(Release(execution.id));
      }
    }
  }

  lemma KeepTightest(rows: seq<Row>, bs: seq<Budget>, i: nat, execution: Execution, at: Moment,
                     was: Option<Constraint>, c: Constraint, replace: bool)
    requires i < |bs| && Reserving(bs[i].mode) && Tightest(rows, bs, i, execution, at, was)
    requires c == Report(rows, bs[i], execution, at)
    requires replace <==> was.None? || c.remaining < was.value.remaining
    ensures Tightest(rows, bs, i + 1, execution, at, if replace then Some(c) else was)
  {
    if replace {
      assert IsTightest(rows, bs, i + 1, execution, at, c, i);
    } else {
      var j :| 0 <= j < i && IsTightest(rows, bs, i, execution, at, was.value, j);
      assert IsTightest(rows, bs, i + 1, execution, at, was.value, j);
    }
  }

  /** A signalling budget takes no hold and is never reported. */
  lemma SkipSignalling(rows: seq<Row>, bs: seq<Budget>, i: nat, execution: Execution, at: Moment,
                       was: Option<Constraint>)
    requires i < |bs| && !Reserving(bs[i].mode) && Tightest(rows, bs, i, execution, at, was)
    ensures Tightest(rows, bs, i + 1, execution, at, was)
    ensures Holds(rows, bs[..i + 1], execution, at) == Holds(rows, bs[..i], execution, at)
  {
    assert bs[..i + 1][..i] == bs[..i];
    if was.Some? {
      var j :| 0 <= j < i && IsTightest(rows, bs, i, execution, at, was.value, j);
      assert IsTightest(rows, bs, i + 1, execution, at, was.value, j);
    }
  }

  // ----- Conservation -----

  /** Settle the listed executions in order, each with its recorded spend. */
  function SettleAll(rows: seq<Row>, order: seq<ExecutionId>, spend: ExecutionId -> real): seq<Row>
    decreases order
  {
    if order == [] then rows
    else SettleAll(Settled(rows, SettlementFor(order[0], spend(order[0]))), order[1..], spend)
  }

  /** What becomes of one row, whatever the order and however often executions repeat. */
  function Fate(r: Row, settled: set<ExecutionId>, spend: ExecutionId -> real): Row {
    if r.status == Reserved && r.execution in settled
    then Close(SettlementFor(r.execution, spend(r.execution)), r) else r
  }

  lemma {:induction false} SettleAllRows(rows: seq<Row>, order: seq<ExecutionId>, spend: ExecutionId -> real, i: nat)
    requires i < |rows|
    ensures |SettleAll(rows, order, spend)| == |rows|
    ensures SettleAll(rows, order, spend)[i] == Fate(rows[i], (set e | e in order), spend)
    decreases order
  {
    if order != [] {
      var first := Settled(rows, SettlementFor(order[0], spend(order[0])));
      SettleAllRows(first, order[1..], spend, i);
      assert order == [order[0]] + order[1..];
    }
  }

  /** Recorded spend owed by the rows of a bucket: closed rows owe what they recorded, open holds what
      their execution spent. */
  function Owed(r: Row, b: BudgetId, k: PeriodKey, spend: ExecutionId -> real): real {
    if r.budget != b || r.key != k then 0.0
    else if r.status == Reserved then (if spend(r.execution) > 0.0 then spend(r.execution) else 0.0)
    else Weight(r, Spent)
  }

  function TotalOwed(rows: seq<Row>, b: BudgetId, k: PeriodKey, spend: ExecutionId -> real): real {
    if rows == [] then 0.0
    else TotalOwed(rows[..|rows| - 1], b, k, spend) + Owed(rows[|rows| - 1], b, k, spend)
  }

  /** Once every holding execution is settled nothing is held, and spent money is exactly what was recorded. */
  lemma SettlingConserves(rows: seq<Row>, order: seq<ExecutionId>, spend: ExecutionId -> real, b: BudgetId,
                          k: PeriodKey)
    requires forall i :: 0 <= i < |rows| && rows[i].status == Reserved ==> rows[i].execution in order
    ensures Total(SettleAll(rows, order, spend), b, k, Held) == 0.0
    ensures Total(SettleAll(rows, order, spend), b, k, Spent) == TotalOwed(rows, b, k, spend)
  {
    var after := SettleAll(rows, order, spend);
    if rows == [] { SettleNothing(order, spend); } else { SettleAllRows(rows, order, spend, 0); }
    forall i | 0 <= i < |rows| ensures after[i] == Fate(rows[i], (set e | e in order), spend) {
      SettleAllRows(rows, order, spend, i);
    }
    FatesAddUp(rows, after, order, spend, b, k);
  }

  lemma {:induction false} SettleNothing(order: seq<ExecutionId>, spend: ExecutionId -> real)
    ensures SettleAll([], order, spend) == []
  {
    if order != [] { SettleNothing(order[1..], spend); }
  }

  lemma {:induction false} FatesAddUp(rows: seq<Row>, after: seq<Row>, order: seq<ExecutionId>,
                                      spend: ExecutionId -> real, b: BudgetId, k: PeriodKey)
    requires |rows| == |after|
    requires forall i :: 0 <= i < |rows| ==> after[i] == Fate(rows[i], (set e | e in order), spend)
    requires forall i :: 0 <= i < |rows| && rows[i].status == Reserved ==> rows[i].execution in order
    ensures Total(after, b, k, Held) == 0.0
    ensures Total(after, b, k, Spent) == TotalOwed(rows, b, k, spend)
  {
    if rows != [] {
      FatesAddUp(rows[..|rows| - 1], after[..|rows| - 1], order, spend, b, k);
    }
  }
}
