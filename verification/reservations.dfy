/** The reservation ledger (backend/app/finops/reservations.py): a hold is taken before an
    execution runs and becomes either its actual cost or nothing afterwards. Money is `real`. */
module Reservations {
  import opened Wrappers

  type BudgetId = nat
  type ExecutionId = nat
  type OrgId = nat

  datatype Mode = Informational | Warning | HardLimit | ApprovalRequired
  datatype Period = Daily | Monthly | PerExecution
  datatype Moment = Moment(year: int, month: int, day: int)
  datatype PeriodKey =
    | Day(year: int, month: int, day: int) | Month(year: int, month: int) | Single(execution: ExecutionId)
  datatype Status = Reserved | Reconciled | Released

  datatype ScopeType = OrganizationScope | ProjectScope | AgentScope | EnvironmentScope | ModelScope

  datatype Budget = Budget(
    id: BudgetId, organization: OrgId, scopeType: ScopeType, scopeId: Option<nat>, scopeValue: Option<string>,
    mode: Mode, period: Period, limit: real, estimate: Option<real>, threshold: nat, enabled: bool, createdAt: int)

  datatype Execution = Execution(id: ExecutionId, organization: OrgId)

  datatype Row = Row(
    budget: BudgetId, execution: ExecutionId, organization: OrgId,
    held: real, actual: Option<real>, status: Status, key: PeriodKey)

  const DEFAULT_RESERVATION := 0.05

  predicate Reserving(mode: Mode) {
    mode == HardLimit || mode == ApprovalRequired
  }

  function PeriodKeyOf(period: Period, execution: ExecutionId, at: Moment): PeriodKey {
    match period
    case Daily => Day(at.year, at.month, at.day)
    case Monthly => Month(at.year, at.month)
    case PerExecution => Single(execution)
  }

  function EstimateFor(budget: Budget): real {
    budget.estimate.GetOr(DEFAULT_RESERVATION)
  }

  // ----- Balances -----

  /** What one row contributes. `Held` and `Spent` are the two figures the source reports;
      `Charged` caps a reconciled row at its hold and `Overrun` is what exceeded it. */
  datatype Measure = Held | Spent | Charged | Overrun

  function Weight(r: Row, m: Measure): real {
    var actual := r.actual.GetOr(0.0);
    match m
    case Held => if r.status == Reserved then r.held else 0.0
    case Spent => if r.status == Reconciled then actual else 0.0
    case Charged => if r.status == Reserved then r.held
                    else if r.status == Reconciled then (if actual <= r.held then actual else r.held) else 0.0
    case Overrun => if r.status == Reconciled && actual > r.held then actual - r.held else 0.0
  }

  function Part(r: Row, b: BudgetId, k: PeriodKey, m: Measure): real {
    if r.budget == b && r.key == k then Weight(r, m) else 0.0
  }

  function Total(rows: seq<Row>, b: BudgetId, k: PeriodKey, m: Measure): real {
    if rows == [] then 0.0
    else Total(rows[..|rows| - 1], b, k, m) + Part(rows[|rows| - 1], b, k, m)
  }

  function Committed(rows: seq<Row>, b: BudgetId, k: PeriodKey): real {
    Total(rows, b, k, Held) + Total(rows, b, k, Spent)
  }

  function Remaining(rows: seq<Row>, budget: Budget, k: PeriodKey): real {
    budget.limit - Committed(rows, budget.id, k)
  }

  function OverThreshold(rows: seq<Row>, budget: Budget, k: PeriodKey): bool {
    var utilization := if budget.limit <= 0.0 then 1.0 else Committed(rows, budget.id, k) / budget.limit;
    utilization * 100.0 >= budget.threshold as real
  }

  lemma TotalAppend(rows: seq<Row>, r: Row, b: BudgetId, k: PeriodKey, m: Measure)
    ensures Total(rows + [r], b, k, m) == Total(rows, b, k, m) + Part(r, b, k, m)
  {
    assert (rows + [r])[..|rows|] == rows;
  }

  /** The balance, row by row: an open hold counts in full, a reconciled row its actual, a released one nothing, and
      rows of other budgets or periods not at all. */
  lemma CommittedRowByRow(rows: seq<Row>, r: Row, b: BudgetId, k: PeriodKey)
    ensures Committed([], b, k) == 0.0
    ensures Committed(rows + [r], b, k) == Committed(rows, b, k)
              + if r.budget != b || r.key != k || r.status == Released then 0.0
                else if r.status == Reserved then r.held
                else if r.actual.Some? then r.actual.value else 0.0
  {
    TotalAppend(rows, r, b, k, Held);
    TotalAppend(rows, r, b, k, Spent);
  }

  /** The alarm: the committed share of a positive limit has reached the threshold percentage; a budget without a
      limit counts as fully used. */
  lemma OverThresholdIff(rows: seq<Row>, budget: Budget, k: PeriodKey)
    ensures OverThreshold(rows, budget, k) <==>
            if budget.limit > 0.0 then Committed(rows, budget.id, k) * 100.0 >= budget.limit * budget.threshold as real
            else budget.threshold <= 100
  {
    if budget.limit > 0.0 {
      ShareReaches(Committed(rows, budget.id, k), budget.limit, budget.threshold as real);
    }
  }

  lemma ShareReaches(part: real, whole: real, percent: real)
    requires whole > 0.0
    ensures (part / whole) * 100.0 >= percent <==> part * 100.0 >= whole * percent
  {
    var share := part / whole;
    assert share * whole == part;
    assert part * 100.0 - whole * percent == whole * (share * 100.0 - percent);
    SignOfProduct(whole, share * 100.0 - percent);
  }

  lemma SignOfProduct(k: real, d: real)
    requires k > 0.0
    ensures k * d >= 0.0 <==> d >= 0.0
  {
  }

  /** Totals compare as the rows do, so equal rows have equal totals. */
  lemma {:induction false} TotalLe(xs: seq<Row>, ys: seq<Row>, b: BudgetId, k: PeriodKey, m: Measure)
    requires |xs| == |ys|
    requires forall i :: 0 <= i < |xs| ==> Part(xs[i], b, k, m) <= Part(ys[i], b, k, m)
    ensures Total(xs, b, k, m) <= Total(ys, b, k, m)
  {
    if xs != [] {
      TotalLe(xs[..|xs| - 1], ys[..|ys| - 1], b, k, m);
    }
  }

  lemma {:induction false} TotalNonNegative(rows: seq<Row>, b: BudgetId, k: PeriodKey, m: Measure)
    requires NonNegative(rows)
    ensures Total(rows, b, k, m) >= 0.0
  {
    if rows != [] {
      TotalNonNegative(rows[..|rows| - 1], b, k, m);
    }
  }

  /** Held plus spent money is the capped charge plus the overrun. */
  lemma {:induction false} CommittedSplit(rows: seq<Row>, b: BudgetId, k: PeriodKey)
    ensures Committed(rows, b, k) == Total(rows, b, k, Charged) + Total(rows, b, k, Overrun)
  {
    if rows != [] {
      CommittedSplit(rows[..|rows| - 1], b, k);
    }
  }

  lemma {:induction false} HeldAtMostCharged(rows: seq<Row>, b: BudgetId, k: PeriodKey)
    requires NonNegative(rows)
    ensures Total(rows, b, k, Held) <= Total(rows, b, k, Charged) <= Committed(rows, b, k)
  {
    if rows != [] {
      HeldAtMostCharged(rows[..|rows| - 1], b, k);
    }
  }

  // ----- The table's own constraints -----

  /** `reserved_amount >= 0` and no negative actual. */
  ghost predicate NonNegative(rows: seq<Row>) {
    forall i :: 0 <= i < |rows| ==> rows[i].held >= 0.0 && rows[i].actual.GetOr(0.0) >= 0.0
  }

  predicate LiveFor(r: Row, b: BudgetId, e: ExecutionId) {
    r.budget == b && r.execution == e && r.status != Released
  }

  /** The partial unique index on (budget, execution) where the row is not released. */
  predicate UniqueLive(rows: seq<Row>) {
    forall i, j :: 0 <= i < j < |rows| && rows[i].status != Released ==>
        !LiveFor(rows[j], rows[i].budget, rows[i].execution)
  }

  function Existing(rows: seq<Row>, b: BudgetId, e: ExecutionId): (at: Option<nat>)
    ensures at.Some? ==> at.value < |rows| && LiveFor(rows[at.value], b, e)
    ensures at.None? ==> forall i :: 0 <= i < |rows| ==> !LiveFor(rows[i], b, e)
  {
    if rows == [] then None
    else
      match Existing(rows[..|rows| - 1], b, e)
      case Some(i) => Some(i)
      case None => if LiveFor(rows[|rows| - 1], b, e) then Some(|rows| - 1) else None
  }

  // ----- Settlements -----

  datatype Settlement =
    | Reconcile(execution: ExecutionId, actual: Option<real>)
    | Release(execution: ExecutionId)
    | Sweep(organization: Option<OrgId>, terminal: set<ExecutionId>)

  predicate Selects(s: Settlement, r: Row) {
    && r.status == Reserved
    && match s
       case Reconcile(e, _) => r.execution == e
       case Release(e) => r.execution == e
       case Sweep(org, terminal) => r.execution in terminal && (org.Some? ==> r.organization == org.value)
  }

  function Close(s: Settlement, r: Row): Row {
    match s
    case Reconcile(_, actual) => r.(actual := Some(actual.GetOr(0.0)), status := Reconciled)
    case Release(_) => r.(status := Released)
    case Sweep(_, _) => r.(status := Released)
  }

  function Settled(rows: seq<Row>, s: Settlement): seq<Row> {
    seq(|rows|, i requires 0 <= i < |rows| => if Selects(s, rows[i]) then Close(s, rows[i]) else rows[i])
  }

  function SelectedCount(rows: seq<Row>, s: Settlement): nat {
    if rows == [] then 0
    else SelectedCount(rows[..|rows| - 1], s) + if Selects(s, rows[|rows| - 1]) then 1 else 0
  }

  /** A row after which only RESERVED may still change, and only into a closed state. */
  predicate Advances(before: Row, after: Row) {
    || after == before
    || (&& before.status == Reserved && after.status != Reserved
        && after == before.(status := after.status, actual := after.actual))
  }

  /** Settling twice is settling once, whatever the second call reports as the actual. */
  lemma SettleIdempotent(rows: seq<Row>, s: Settlement, again: Settlement)
    requires s.Reconcile? || s.Release?
    requires again.Reconcile? || again.Release?
    requires again.execution == s.execution
    ensures Settled(Settled(rows, s), again) == Settled(rows, s)
    ensures SelectedCount(Settled(rows, s), again) == 0
  {
    NothingSelected(Settled(rows, s), again);
  }

  lemma {:induction false} NothingSelected(rows: seq<Row>, s: Settlement)
    requires forall i :: 0 <= i < |rows| ==> !Selects(s, rows[i])
    ensures SelectedCount(rows, s) == 0
    ensures Settled(rows, s) == rows
  {
    if rows != [] {
      NothingSelected(rows[..|rows| - 1], s);
    }
  }

  // ----- Reserving -----

  datatype Answer = NotReserving | UnknownBudget | NoHeadroom | AlreadyHeld(at: nat) | Granted(at: nat)

  function NewRow(b: BudgetId, execution: Execution, amount: real, key: PeriodKey): Row {
    Row(b, execution.id, execution.organization, amount, None, Reserved, key)
  }

  /** What one uninterrupted `reserve` answers. The budget row is re-read under the lock. */
  function ReserveAnswer(budgets: map<BudgetId, Budget>, rows: seq<Row>, budget: Budget, execution: Execution,
                         amount: Option<real>, at: Moment): Answer {
    var key := PeriodKeyOf(budget.period, execution.id, at);
    if !Reserving(budget.mode) || !budget.enabled then NotReserving
    else if budget.id !in budgets then UnknownBudget
    else if Committed(rows, budget.id, key) + amount.GetOr(EstimateFor(budget)) > budgets[budget.id].limit
      then NoHeadroom
    else match Existing(rows, budget.id, execution.id)
         case Some(i) => AlreadyHeld(i)
         case None => Granted(|rows|)
  }

  function ReserveRows(budgets: map<BudgetId, Budget>, rows: seq<Row>, budget: Budget, execution: Execution,
                       amount: Option<real>, at: Moment): seq<Row> {
    if ReserveAnswer(budgets, rows, budget, execution, amount, at).Granted?
    then
      var key := PeriodKeyOf(budget.period, execution.id, at);
      rows + [NewRow(budget.id, execution, amount.GetOr(EstimateFor(budget)), key)]
    else rows
  }

  /** When a hold is granted, and what it is: on a budget that can stop an execution, while it fits into the limit as
      re-read, for an execution without an unreleased row. */
  lemma GrantedIff(budgets: map<BudgetId, Budget>, rows: seq<Row>, budget: Budget, execution: Execution,
                   amount: Option<real>, at: Moment)
    ensures var estimate := if budget.estimate.Some? then budget.estimate.value else 0.05;
            var hold := if amount.Some? then amount.value else estimate;
            var k, answer := PeriodKeyOf(budget.period, execution.id, at),
                             ReserveAnswer(budgets, rows, budget, execution, amount, at);
            && (answer.Granted? <==>
                  && (budget.mode == HardLimit || budget.mode == ApprovalRequired) && budget.enabled
                  && budget.id in budgets && Committed(rows, budget.id, k) + hold <= budgets[budget.id].limit
                  && forall i :: 0 <= i < |rows| ==>
                       rows[i].budget != budget.id || rows[i].execution != execution.id || rows[i].status == Released)
            && (answer.NoHeadroom? ==> Committed(rows, budget.id, k) + hold > budgets[budget.id].limit)
            && (answer.NotReserving? <==> budget.mode == Informational || budget.mode == Warning || !budget.enabled)
            && ReserveRows(budgets, rows, budget, execution, amount, at)
               == if !answer.Granted? then rows
                  else rows + [Row(budget.id, execution.id, execution.organization, hold, None, Reserved, k)]
  {
    var at := Existing(rows, budget.id, execution.id);
    assert at.Some? ==> LiveFor(rows[at.value], budget.id, execution.id);
    assert at.None? ==> forall i :: 0 <= i < |rows| ==> !LiveFor(rows[i], budget.id, execution.id);
  }

  /** Two moments lie in one period of the budget, for two different executions. */
  predicate OnePeriod(period: Period, a: Moment, b: Moment) {
    match period
    case Daily => a.year == b.year && a.month == b.month && a.day == b.day
    case Monthly => a.year == b.year && a.month == b.month
    case PerExecution => false
  }

  lemma FirstTakesAll(budget: Budget, first: Execution, at: Moment)
    requires Reserving(budget.mode) && budget.enabled && budget.limit >= 0.0
    ensures ReserveRows(map[budget.id := budget], [], budget, first, Some(budget.limit), at)
            == [Row(budget.id, first.id, first.organization, budget.limit, None, Reserved,
                    PeriodKeyOf(budget.period, first.id, at))]
  {
    GrantedIff(map[budget.id := budget], [], budget, first, Some(budget.limit), at);
  }

  lemma SecondFindsItTaken(budget: Budget, row: Row, second: Execution, amount: real, at: Moment)
    requires Reserving(budget.mode) && budget.enabled && 0.0 < amount <= budget.limit
    requires row.budget == budget.id && row.execution != second.id && row.status == Reserved && row.held == budget.limit
    ensures var answer := ReserveAnswer(map[budget.id := budget], [row], budget, second, Some(amount), at);
            if row.key == PeriodKeyOf(budget.period, second.id, at) then answer.NoHeadroom? else answer.Granted?
  {
    CommittedRowByRow([], row, budget.id, PeriodKeyOf(budget.period, second.id, at));
    assert [] + [row] == [row];
    assert Existing([row], budget.id, second.id).None?;
  }

  /** Once one execution holds the whole limit, another is refused exactly within the same period; beyond it, and in a
      per-execution budget always, it gets its hold. */
  lemma RefusedWithinThePeriodIff(budget: Budget, first: Execution, second: Execution, amount: real, d1: Moment,
                                  d2: Moment)
    requires Reserving(budget.mode) && budget.enabled && first.id != second.id && 0.0 < amount <= budget.limit
    ensures var rows := ReserveRows(map[budget.id := budget], [], budget, first, Some(budget.limit), d1);
            var answer := ReserveAnswer(map[budget.id := budget], rows, budget, second, Some(amount), d2);
            && (answer.NoHeadroom? <==> OnePeriod(budget.period, d1, d2))
            && (answer.Granted? <==> !OnePeriod(budget.period, d1, d2))
  {
    var rows := ReserveRows(map[budget.id := budget], [], budget, first, Some(budget.limit), d1);
    FirstTakesAll(budget, first, d1);
    SecondFindsItTaken(budget, rows[0], second, amount, d2);
    assert rows == [rows[0]];
    SameKeyIff(budget.period, first.id, second.id, d1, d2);
  }

  lemma SameKeyIff(period: Period, first: ExecutionId, second: ExecutionId, d1: Moment, d2: Moment)
    requires first != second
    ensures PeriodKeyOf(period, first, d1) == PeriodKeyOf(period, second, d2) <==> OnePeriod(period, d1, d2)
  {
  }

  /** What each settlement does to each row, in full. */
  lemma SettledRowByRow(rows: seq<Row>, s: Settlement, i: nat)
    requires i < |rows|
    ensures |Settled(rows, s)| == |rows|
    ensures var r, q := rows[i], Settled(rows, s)[i];
            match s
            case Reconcile(e, actual) =>
              q == if r.status == Reserved && r.execution == e
                   then r.(status := Reconciled, actual := Some(if actual.Some? then actual.value else 0.0)) else r
            case Release(e) => q == if r.status == Reserved && r.execution == e then r.(status := Released) else r
            case Sweep(org, terminal) =>
              q == if r.status == Reserved && r.execution in terminal && (org == None || org == Some(r.organization))
                   then r.(status := Released) else r
  {
  }

  /** A second `reserve` for an execution that already holds never adds a row. It reports the existing
      row only while a second hold of the same size would still fit; otherwise it answers "refused". */
  lemma RepeatedReserve(budgets: map<BudgetId, Budget>, rows: seq<Row>, budget: Budget, execution: Execution,
                        amount: Option<real>, at: Moment)
    requires Reserving(budget.mode) && budget.enabled && budget.id in budgets
    requires Existing(rows, budget.id, execution.id).Some?
    ensures ReserveRows(budgets, rows, budget, execution, amount, at) == rows
    ensures var key := PeriodKeyOf(budget.period, execution.id, at);
            var fits := Committed(rows, budget.id, key) + amount.GetOr(EstimateFor(budget)) <= budgets[budget.id].limit;
            ReserveAnswer(budgets, rows, budget, execution, amount, at)
            == if fits then AlreadyHeld(Existing(rows, budget.id, execution.id).value) else NoHeadroom
  {
  }

  /** Why a retry is charged only after a release: a settlement with spend leaves a reconciled row that
      blocks a fresh hold, so whatever the second attempt spends reaches no budget. */
  lemma RetryAfterSpendIsNotCharged(budgets: map<BudgetId, Budget>, rows: seq<Row>, budget: Budget,
                                    execution: Execution, first: real, second: Settlement, at: Moment)
    requires second == Release(execution.id) || (second.Reconcile? && second.execution == execution.id)
    requires Existing(rows, budget.id, execution.id).Some?
    requires UniqueLive(rows)
    ensures var closed := Settled(rows, Reconcile(execution.id, Some(first)));
            && ReserveRows(budgets, closed, budget, execution, None, at) == closed
            && Settled(ReserveRows(budgets, closed, budget, execution, None, at), second) == closed
  {
    var closed := Settled(rows, Reconcile(execution.id, Some(first)));
    var i := Existing(rows, budget.id, execution.id).value;
    assert LiveFor(closed[i], budget.id, execution.id);
    SettleIdempotent(rows, Reconcile(execution.id, Some(first)), second);
  }

  /** ... whereas after a release the retry claims afresh exactly when its hold fits again. */
  lemma RetryAfterReleaseClaimsAfresh(budgets: map<BudgetId, Budget>, rows: seq<Row>, budget: Budget,
                                      execution: Execution, at: Moment)
    requires Reserving(budget.mode) && budget.enabled && budget.id in budgets
    requires Existing(rows, budget.id, execution.id).Some?
    requires rows[Existing(rows, budget.id, execution.id).value].status == Reserved && UniqueLive(rows)
    ensures var open := Settled(rows, Release(execution.id));
            var key := PeriodKeyOf(budget.period, execution.id, at);
            ReserveAnswer(budgets, open, budget, execution, None, at).Granted?
            <==> Committed(open, budget.id, key) + EstimateFor(budget) <= budgets[budget.id].limit
  {
    var open := Settled(rows, Release(execution.id));
    var i := Existing(rows, budget.id, execution.id).value;
    forall j | 0 <= j < |open| ensures !LiveFor(open[j], budget.id, execution.id) {
      if j < i { assert !LiveFor(rows[i], rows[j].budget, rows[j].execution) || rows[j].status == Released; }
    }
  }

  // ----- The service -----

  class ReservationLedger {
    var budgets: map<BudgetId, Budget>
    var rows: seq<Row>

    constructor (budgets: map<BudgetId, Budget>)
      ensures this.budgets == budgets && rows == []
    {
      this.budgets, rows := budgets, [];
    }

    /** Lock, weigh, then insert or refuse; the uninterrupted case of the run model. */
    method Reserve(budget: Budget, execution: Execution, amount: Option<real>, at: Moment) returns (answer: Answer)
      modifies this`rows
      ensures answer == ReserveAnswer(budgets, old(rows), budget, execution, amount, at)
      ensures rows == ReserveRows(budgets, old(rows), budget, execution, amount, at)
    {
      if !Reserving(budget.mode) || !budget.enabled {
        return NotReserving;
      }
      var key := PeriodKeyOf(budget.period, execution.id, at);
      var estimate := amount.GetOr(EstimateFor(budget));
      if budget.id !in budgets {
        return UnknownBudget;
      }
      if Committed(rows, budget.id, key) + estimate > budgets[budget.id].limit {
        return NoHeadroom;
      }
      match Existing(rows, budget.id, execution.id)
      case Some(i) => answer := AlreadyHeld(i);
      case None =>
        answer := Granted(|rows|);
        rows := rows + [NewRow(budget.id, execution, estimate, key)];
    }

    /** The three settlements share one loop over the selected rows. */
    method Settle(s: Settlement) returns (count: nat)
      modifies this`rows
      ensures rows == Settled(old(rows), s)
      ensures count == SelectedCount(old(rows), s)
    {
      count := 0;
      var i := 0;
      while i < |rows|
        invariant 0 <= i <= |rows| == |old(rows)|
        invariant rows[..i] == Settled(old(rows), s)[..i]
        invariant rows[i..] == old(rows)[i..]
        invariant count == SelectedCount(old(rows)[..i], s)
      {
        assert rows[i] == rows[i..][0] == old(rows)[i];
        assert old(rows)[..i + 1][..i] == old(rows)[..i];
        if Selects(s, rows[i]) {
          rows := rows[i := Close(s, rows[i])];
          count := count + 1;
        }
        i := i + 1;
      }
      assert old(rows)[..|rows|] == old(rows);
    }
  }
}
