/** Finite sums over a set of names. */
module Sums {

  ghost function Sum(s: set<string>, f: string -> real): real
    decreases s
  {
    if s == {} then 0.0 else var x :| x in s; f(x) + Sum(s - {x}, f)
  }

  /** The order of summation does not matter: any element may be taken out first. */
  lemma {:induction false} SumPick(s: set<string>, f: string -> real, y: string)
    requires y in s
    ensures Sum(s, f) == f(y) + Sum(s - {y}, f)
    decreases s
  {
    var x :| x in s && Sum(s, f) == f(x) + Sum(s - {x}, f);
    if x != y {
      SumPick(s - {x}, f, y);
      SumPick(s - {y}, f, x);
      assert s - {x} - {y} == s - {y} - {x};
    }
  }

  lemma {:induction false} SumLe(s: set<string>, f: string -> real, g: string -> real)
    requires forall x :: x in s ==> f(x) <= g(x)
    ensures Sum(s, f) <= Sum(s, g)
    decreases s
  {
    if x :| x in s {
      SumPick(s, f, x);
      SumPick(s, g, x);
      SumLe(s - {x}, f, g);
    }
  }

  lemma {:induction false} SumAdd(s: set<string>, f: string -> real, g: string -> real, h: string -> real)
    requires forall x :: x in s ==> h(x) == f(x) + g(x)
    ensures Sum(s, h) == Sum(s, f) + Sum(s, g)
    decreases s
  {
    if x :| x in s {
      SumPick(s, f, x);
      SumPick(s, g, x);
      SumPick(s, h, x);
      SumAdd(s - {x}, f, g, h);
    }
  }

  lemma Distribute(k: real, x: real, y: real)
    ensures k * (x + y) == k * x + k * y
  {
  }

  lemma {:induction false} SumScale(s: set<string>, f: string -> real, h: string -> real, k: real)
    requires forall x :: x in s ==> h(x) == k * f(x)
    ensures Sum(s, h) == k * Sum(s, f)
    decreases s
  {
    if x :| x in s {
      SumPick(s, f, x);
      SumPick(s, h, x);
      SumScale(s - {x}, f, h, k);
      Distribute(k, f(x), Sum(s - {x}, f));
    }
  }

  lemma {:induction false} SumZeros(s: set<string>, f: string -> real)
    requires forall x :: x in s ==> f(x) == 0.0
    ensures Sum(s, f) == 0.0
    decreases s
  {
    if x :| x in s {
      SumPick(s, f, x);
      SumZeros(s - {x}, f);
    }
  }

  /** Names outside `s` that contribute nothing may be added. */
  lemma {:induction false} SumExtend(s: set<string>, t: set<string>, f: string -> real)
    requires s <= t && forall x :: x in t - s ==> f(x) == 0.0
    ensures Sum(t, f) == Sum(s, f)
    decreases t
  {
    if s != t {
      var x :| x in t && x !in s;
      SumPick(t, f, x);
      SumExtend(s, t - {x}, f);
    }
  }

  lemma SumPositive(s: set<string>, f: string -> real, y: string)
    requires (forall x :: x in s ==> f(x) >= 0.0) && y in s
    ensures Sum(s, f) >= f(y)
  {
    SumPick(s, f, y);
    SumLe(s - {y}, z => 0.0, f);
    SumZeros(s - {y}, z => 0.0);
  }
}

/** Total-variation distance between two families of shares. */
module Variation {
  import opened Sums

  type Shares = string -> real

  function Abs(x: real): real {
    if x < 0.0 then -x else x
  }

  function Gap(p: Shares, q: Shares): Shares {
    (t: string) => Abs(p(t) - q(t))
  }

  /** Half the summed differences. */
  ghost function Distance(s: set<string>, p: Shares, q: Shares): real {
    Sum(s, Gap(p, q)) / 2.0
  }

  ghost predicate NonNegative(s: set<string>, p: Shares) {
    forall t :: t in s ==> p(t) >= 0.0
  }

  lemma InRange(s: set<string>, p: Shares, q: Shares)
    requires NonNegative(s, p) && NonNegative(s, q) && Sum(s, p) <= 1.0 && Sum(s, q) <= 1.0
    ensures 0.0 <= Distance(s, p, q) <= 1.0
  {
    var none: Shares, both: Shares := t => 0.0, t => p(t) + q(t);
    SumZeros(s, none);
    SumLe(s, none, Gap(p, q));
    SumLe(s, Gap(p, q), both);
    SumAdd(s, p, q, both);
  }

  lemma Symmetric(s: set<string>, p: Shares, q: Shares)
    ensures Distance(s, p, q) == Distance(s, q, p)
  {
    SumLe(s, Gap(p, q), Gap(q, p));
    SumLe(s, Gap(q, p), Gap(p, q));
  }

  lemma GapTriangle(p: Shares, q: Shares, r: Shares, t: string)
    ensures Gap(p, r)(t) <= Gap(p, q)(t) + Gap(q, r)(t)
  {
    assert Gap(p, r)(t) == Abs(p(t) - r(t));
    assert Gap(p, q)(t) == Abs(p(t) - q(t));
    assert Gap(q, r)(t) == Abs(q(t) - r(t));
  }

  lemma Triangle(s: set<string>, p: Shares, q: Shares, r: Shares)
    ensures Distance(s, p, r) <= Distance(s, p, q) + Distance(s, q, r)
  {
    var legs: Shares := t => Gap(p, q)(t) + Gap(q, r)(t);
    forall t | t in s ensures Gap(p, r)(t) <= legs(t) {
      GapTriangle(p, q, r, t);
    }
    SumLe(s, Gap(p, r), legs);
    SumAdd(s, Gap(p, q), Gap(q, r), legs);
  }

  lemma ZeroIff(s: set<string>, p: Shares, q: Shares)
    ensures Distance(s, p, q) == 0.0 <==> forall t :: t in s ==> p(t) == q(t)
  {
    if Distance(s, p, q) == 0.0 {
      forall t | t in s ensures p(t) == q(t) { SumPositive(s, Gap(p, q), t); }
    } else if forall t :: t in s ==> p(t) == q(t) {
      SumZeros(s, Gap(p, q));
    }
  }

  lemma OneIff(s: set<string>, p: Shares, q: Shares)
    requires NonNegative(s, p) && NonNegative(s, q) && Sum(s, p) == 1.0 && Sum(s, q) == 1.0
    ensures Distance(s, p, q) == 1.0 <==> forall t :: t in s ==> p(t) == 0.0 || q(t) == 0.0
  {
    var both: Shares, common: Shares := t => p(t) + q(t), t => if p(t) <= q(t) then p(t) else q(t);
    var twice: Shares := t => common(t) + common(t);
    SumAdd(s, p, q, both);
    SumAdd(s, common, common, twice);
    SumAdd(s, Gap(p, q), twice, both);
    if Distance(s, p, q) == 1.0 {
      forall t | t in s ensures p(t) == 0.0 || q(t) == 0.0 { SumPositive(s, common, t); }
    } else if forall t :: t in s ==> p(t) == 0.0 || q(t) == 0.0 {
      SumZeros(s, common);
    }
  }
}

/** The behavioural signal rules (backend/app/behavior/signals.py), over exact reals. */
module Signals {
  import opened Wrappers
  import opened Sums
  import opened Variation

  datatype State = Normal | Unknown | InsufficientData | Degraded | Anomalous

  function Severity(s: State): nat {
    match s
    case Normal => 0
    case Unknown => 1
    case InsufficientData => 2
    case Degraded => 3
    case Anomalous => 4
  }

  lemma SeverityRanks()
    ensures Severity(Normal) < Severity(Unknown) < Severity(InsufficientData) < Severity(Degraded) < Severity(Anomalous)
  {
  }

  // ----- Tool mix -----

  type ToolId = string

  datatype ToolUse = ToolUse(calls: nat, failures: nat)

  type Tools = map<ToolId, ToolUse>

  function CallsOf(tools: Tools): Shares {
    (t: string) => if t in tools then tools[t].calls as real else 0.0
  }

  ghost function CallCount(tools: Tools): real {
    Sum(tools.Keys, CallsOf(tools))
  }

  /** A share of the calls; a window without calls divides by one. */
  function Share(calls: real, total: real): real {
    calls / (if total == 0.0 then 1.0 else total)
  }

  ghost function SharesOf(tools: Tools): Shares {
    var total := CallCount(tools);
    (t: string) => Share(CallsOf(tools)(t), total)
  }

  /** Distance between two tool mixes. */
  ghost function MixDistance(a: Tools, b: Tools): real {
    Distance(a.Keys + b.Keys, SharesOf(a), SharesOf(b))
  }

  lemma CallCountSign(tools: Tools)
    ensures CallCount(tools) >= 0.0
    ensures CallCount(tools) == 0.0 <==> forall t :: t in tools ==> tools[t].calls == 0
  {
    SumZeros(tools.Keys, z => 0.0);
    SumLe(tools.Keys, z => 0.0, CallsOf(tools));
    if CallCount(tools) == 0.0 {
      forall t | t in tools ensures tools[t].calls == 0 {
        SumPositive(tools.Keys, CallsOf(tools), t);
      }
    } else if forall t :: t in tools ==> tools[t].calls == 0 {
      SumZeros(tools.Keys, CallsOf(tools));
    }
  }

  lemma DivisionSign(x: real, y: real)
    requires x >= 0.0 && y > 0.0
    ensures x / y >= 0.0 && (x / y == 0.0 <==> x == 0.0)
  {
    assert (x / y) * y == x;
  }

  lemma ShareFacts(calls: real, total: real)
    requires calls >= 0.0 && total >= 0.0
    ensures Share(calls, total) >= 0.0
    ensures Share(calls, total) == 0.0 <==> calls == 0.0
  {
    DivisionSign(calls, if total == 0.0 then 1.0 else total);
  }

  lemma ShareTimes(calls: real, total: real)
    requires total != 0.0
    ensures calls == total * Share(calls, total)
  {
  }

  lemma Cancel(c: real, n: real, x: real)
    requires n != 0.0 && c == n && c == n * x
    ensures x == 1.0
  {
    assert n * (x - 1.0) == 0.0;
  }

  lemma ShareAt(tools: Tools, t: ToolId)
    ensures SharesOf(tools)(t) >= 0.0
    ensures SharesOf(tools)(t) == 0.0 <==> t !in tools || tools[t].calls == 0
  {
    CallCountSign(tools);
    ShareFacts(CallsOf(tools)(t), CallCount(tools));
  }

  ghost predicate Scaled(all: set<ToolId>, calls: Shares, shares: Shares, n: real) {
    forall t :: t in all ==> calls(t) == n * shares(t)
  }

  lemma CallsAreShares(tools: Tools, all: set<ToolId>, n: real)
    requires n == CallCount(tools) != 0.0
    ensures Scaled(all, CallsOf(tools), SharesOf(tools), n)
  {
    forall t | t in all ensures CallsOf(tools)(t) == n * SharesOf(tools)(t) {
      ShareTimes(CallsOf(tools)(t), n);
    }
  }

  lemma ScaledTotal(all: set<ToolId>, calls: Shares, shares: Shares, n: real)
    requires Sum(all, calls) == n != 0.0 && Scaled(all, calls, shares, n)
    ensures Sum(all, shares) == 1.0
  {
    SumScale(all, shares, calls, n);
    Cancel(Sum(all, calls), n, Sum(all, shares));
  }

  lemma SharesScale(tools: Tools, all: set<ToolId>, n: real)
    requires tools.Keys <= all && n == CallCount(tools) != 0.0
    ensures Sum(all, SharesOf(tools)) == 1.0
  {
    CallsAreShares(tools, all, n);
    NoCallsOutside(tools, all);
    ScaledTotal(all, CallsOf(tools), SharesOf(tools), n);
  }

  lemma NoCallsOutside(tools: Tools, all: set<ToolId>)
    requires tools.Keys <= all
    ensures Sum(all, CallsOf(tools)) == CallCount(tools)
  {
    SumExtend(tools.Keys, all, CallsOf(tools));
  }

  /** The shares add up to one, or to zero when nothing was called. */
  lemma SharesTotal(tools: Tools, all: set<ToolId>)
    requires tools.Keys <= all
    ensures Sum(all, SharesOf(tools)) == if CallCount(tools) == 0.0 then 0.0 else 1.0
    ensures NonNegative(all, SharesOf(tools))
  {
    CallCountSign(tools);
    forall t ensures SharesOf(tools)(t) >= 0.0 && (SharesOf(tools)(t) == 0.0 <==> t !in tools || tools[t].calls == 0) {
      ShareAt(tools, t);
    }
    if CallCount(tools) == 0.0 {
      SumZeros(all, SharesOf(tools));
    } else {
      SharesScale(tools, all, CallCount(tools));
    }
  }

  lemma DistanceInRange(a: Tools, b: Tools)
    ensures 0.0 <= MixDistance(a, b) <= 1.0
  {
    SharesTotal(a, a.Keys + b.Keys);
    SharesTotal(b, a.Keys + b.Keys);
    InRange(a.Keys + b.Keys, SharesOf(a), SharesOf(b));
  }

  lemma DistanceSymmetric(a: Tools, b: Tools)
    ensures MixDistance(a, b) == MixDistance(b, a)
  {
    assert a.Keys + b.Keys == b.Keys + a.Keys;
    Symmetric(a.Keys + b.Keys, SharesOf(a), SharesOf(b));
  }

  /** The distance may be summed over any set of names that has both mixes. */
  lemma DistanceOver(a: Tools, b: Tools, all: set<ToolId>)
    requires a.Keys + b.Keys <= all
    ensures MixDistance(a, b) == Distance(all, SharesOf(a), SharesOf(b))
  {
    var gap := Gap(SharesOf(a), SharesOf(b));
    forall t | t in all - (a.Keys + b.Keys) ensures gap(t) == 0.0 {
      ShareAt(a, t);
      ShareAt(b, t);
    }
    SumExtend(a.Keys + b.Keys, all, gap);
  }

  lemma DistanceTriangle(a: Tools, b: Tools, c: Tools)
    ensures MixDistance(a, c) <= MixDistance(a, b) + MixDistance(b, c)
  {
    var all := a.Keys + b.Keys + c.Keys;
    DistanceOver(a, b, all);
    DistanceOver(b, c, all);
    DistanceOver(a, c, all);
    Triangle(all, SharesOf(a), SharesOf(b), SharesOf(c));
  }

  /** Zero exactly for equal shares. */
  lemma DistanceZeroIff(a: Tools, b: Tools)
    ensures MixDistance(a, b) == 0.0 <==> forall t :: t in a.Keys + b.Keys ==> SharesOf(a)(t) == SharesOf(b)(t)
  {
    ZeroIff(a.Keys + b.Keys, SharesOf(a), SharesOf(b));
  }

  /** One exactly when no tool is called in both windows. */
  lemma DistanceOneIff(a: Tools, b: Tools)
    requires CallCount(a) > 0.0 && CallCount(b) > 0.0
    ensures MixDistance(a, b) == 1.0 <==> forall t :: t in a && t in b ==> a[t].calls == 0 || b[t].calls == 0
  {
    var all := a.Keys + b.Keys;
    SharesTotal(a, all);
    SharesTotal(b, all);
    OneIff(all, SharesOf(a), SharesOf(b));
    forall t
      ensures SharesOf(a)(t) == 0.0 <==> t !in a || a[t].calls == 0
      ensures SharesOf(b)(t) == 0.0 <==> t !in b || b[t].calls == 0
    {
      ShareAt(a, t);
      ShareAt(b, t);
    }
    assert forall t :: t in all ==> (SharesOf(a)(t) == 0.0 || SharesOf(b)(t) == 0.0 <==>
                                     t !in a || t !in b || a[t].calls == 0 || b[t].calls == 0);
  }

  // ----- Verdicts -----

  /** Absolute thresholds first, then the margin over the baseline. */
  function RateState(observed: real, baseline: Option<real>, degraded: real, anomalous: real, margin: real): State {
    if observed >= anomalous then Anomalous
    else if observed >= degraded then Degraded
    else if baseline.Some? && observed - baseline.value >= margin then Degraded
    else Normal
  }

  /** When each state is reached. */
  lemma RateReachedIff(observed: real, baseline: Option<real>, degraded: real, anomalous: real, margin: real)
    ensures var s := RateState(observed, baseline, degraded, anomalous, margin);
            && (s == Anomalous <==> observed >= anomalous)
            && (s == Degraded <==>
                  observed < anomalous
                  && (observed >= degraded || (baseline.Some? && observed >= baseline.value + margin)))
            && (s == Normal <==>
                  observed < anomalous && observed < degraded
                  && (baseline.Some? ==> observed < baseline.value + margin))
  {
  }

  lemma RateMonotone(low: real, high: real, baseline: Option<real>, degraded: real, anomalous: real, margin: real)
    requires low <= high
    ensures Severity(RateState(low, baseline, degraded, anomalous, margin))
         <= Severity(RateState(high, baseline, degraded, anomalous, margin))
  {
  }

  /** The larger of the two ratios; None is the source's infinity. */
  function WorstRatio(observed: real, baseline: real): Option<real>
    requires baseline > 0.0
  {
    if observed <= 0.0 then None
    else Some(if observed / baseline >= baseline / observed then observed / baseline else baseline / observed)
  }

  predicate AtLeast(worst: Option<real>, threshold: real) {
    worst.None? || worst.value >= threshold
  }

  function DriftState(observed: Option<real>, baseline: Option<real>, degraded: real, anomalous: real): State {
    if observed.None? || baseline.None? || baseline.value <= 0.0 then Normal
    else
      var worst := WorstRatio(observed.value, baseline.value);
      if AtLeast(worst, anomalous) then Anomalous else if AtLeast(worst, degraded) then Degraded else Normal
  }

  /** More drift, in either direction, is never judged milder. */
  lemma DriftMonotone(o1: real, b1: real, o2: real, b2: real, degraded: real, anomalous: real)
    requires b1 > 0.0 && b2 > 0.0
    requires WorstRatio(o2, b2).None?
             || (WorstRatio(o1, b1).Some? && WorstRatio(o1, b1).value <= WorstRatio(o2, b2).value)
    ensures Severity(DriftState(Some(o1), Some(b1), degraded, anomalous))
         <= Severity(DriftState(Some(o2), Some(b2), degraded, anomalous))
  {
  }

  lemma RatioAtLeast(x: real, y: real, threshold: real)
    requires y > 0.0
    ensures x / y >= threshold <==> x >= threshold * y
  {
    assert (x / y) * y == x;
    if x / y >= threshold { assert (x / y) * y >= threshold * y; }
    else { assert (x / y) * y < threshold * y; }
  }

  /** A threshold is reached exactly when one value is that many times the other. */
  lemma DriftReachedIff(observed: real, baseline: real, threshold: real)
    requires observed > 0.0 && baseline > 0.0
    ensures AtLeast(WorstRatio(observed, baseline), threshold) <==>
            observed >= threshold * baseline || baseline >= threshold * observed
  {
    RatioAtLeast(observed, baseline, threshold);
    RatioAtLeast(baseline, observed, threshold);
  }

  /** When each verdict is reached: from something to nothing always counts as the largest drift, and without a positive
      baseline there is none. */
  lemma DriftVerdictIff(observed: Option<real>, baseline: Option<real>, degraded: real, anomalous: real)
    ensures var s := DriftState(observed, baseline, degraded, anomalous);
            if observed.None? || baseline.None? || baseline.value <= 0.0 then s == Normal
            else if observed.value <= 0.0 then s == Anomalous
            else
              var o, b := observed.value, baseline.value;
              && (s == Anomalous <==> o >= anomalous * b || b >= anomalous * o)
              && (s == Degraded <==>
                    !(o >= anomalous * b || b >= anomalous * o) && (o >= degraded * b || b >= degraded * o))
              && (s == Normal <==>
                    !(o >= anomalous * b || b >= anomalous * o) && !(o >= degraded * b || b >= degraded * o))
  {
    if observed.Some? && baseline.Some? && baseline.value > 0.0 && observed.value > 0.0 {
      DriftReachedIff(observed.value, baseline.value, anomalous);
      DriftReachedIff(observed.value, baseline.value, degraded);
    }
  }

  /** Swapping the windows keeps the verdict unless exactly one of the two values is zero: from something to
      nothing is anomalous, from nothing to something has no baseline and is normal. */
  lemma DriftSwapIff(x: real, y: real, degraded: real, anomalous: real)
    requires x >= 0.0 && y >= 0.0
    ensures DriftState(Some(x), Some(y), degraded, anomalous) == DriftState(Some(y), Some(x), degraded, anomalous)
            <==> (x == 0.0 <==> y == 0.0)
    ensures x == 0.0 && y > 0.0 ==>
              && DriftState(Some(x), Some(y), degraded, anomalous) == Anomalous
              && DriftState(Some(y), Some(x), degraded, anomalous) == Normal
  {
  }

  /** The drift ratios reused as distance limits; a zero ratio raises (None). */
  function MixState(distance: real, degraded: real, anomalous: real): Option<State> {
    if anomalous == 0.0 then None
    else if distance >= 1.0 / anomalous then Some(Anomalous)
    else if degraded == 0.0 then None
    else if distance >= 1.0 / degraded then Some(Degraded)
    else Some(Normal)
  }

  lemma LimitReachedIff(distance: real, ratio: real)
    requires distance >= 0.0 && ratio != 0.0
    ensures distance >= 1.0 / ratio <==> ratio < 0.0 || distance * ratio >= 1.0
  {
    var limit := 1.0 / ratio;
    assert limit * ratio == 1.0;
    if ratio > 0.0 {
      assert distance * ratio - 1.0 == ratio * (distance - limit);
      Product(ratio, distance - limit);
    } else {
      ReciprocalSign(ratio);
    }
  }

  /** When each verdict on a distance is reached. A ratio of zero raises as soon as it is needed. */
  lemma MixReachedIff(distance: real, degraded: real, anomalous: real)
    requires distance >= 0.0
    ensures var s := MixState(distance, degraded, anomalous);
            var far := anomalous < 0.0 || distance * anomalous >= 1.0;
            && (s == None <==> anomalous == 0.0 || (!far && degraded == 0.0))
            && (s == Some(Anomalous) <==> anomalous != 0.0 && far)
            && (s == Some(Degraded) <==>
                  anomalous != 0.0 && !far && degraded != 0.0 && (degraded < 0.0 || distance * degraded >= 1.0))
            && s in {None, Some(Anomalous), Some(Degraded), Some(Normal)}
  {
    if anomalous != 0.0 { LimitReachedIff(distance, anomalous); }
    if degraded != 0.0 { LimitReachedIff(distance, degraded); }
  }

  lemma MixMonotone(low: real, high: real, degraded: real, anomalous: real)
    requires low <= high && degraded != 0.0 && anomalous != 0.0
    ensures Severity(MixState(low, degraded, anomalous).value) <= Severity(MixState(high, degraded, anomalous).value)
  {
  }

  lemma ReciprocalOrder(x: real, y: real)
    requires x > 0.0 && y > 0.0
    ensures 1.0 / x <= 1.0 / y <==> y <= x
    ensures 1.0 / x > 0.0
  {
    assert (1.0 / x) * x == 1.0 && (1.0 / y) * y == 1.0;
    assert 1.0 / y - 1.0 / x == (1.0 / x) * (1.0 / y) * (x - y);
    DivisionSign(1.0, x);
    DivisionSign(1.0, y);
    Product((1.0 / x) * (1.0 / y), x - y);
  }

  lemma Product(k: real, d: real)
    requires k > 0.0
    ensures k * d >= 0.0 <==> d >= 0.0
  {
  }

  /** A mix shift can be DEGRADED at all, whatever the configured ratios, exactly when the anomalous one is positive
      and the degraded one is negative, or the larger of the two and within reach of a distance: with the defaults
      1.5 and 3.0 the band is empty. */
  lemma DegradedBandIff(degraded: real, anomalous: real)
    ensures (exists d :: 0.0 <= d <= 1.0 && MixState(d, degraded, anomalous) == Some(Degraded))
            <==> anomalous > 0.0 && (degraded < 0.0 || (anomalous < degraded && degraded >= 1.0))
  {
    if anomalous != 0.0 { ReciprocalSign(anomalous); }
    if degraded != 0.0 { ReciprocalSign(degraded); }
    if anomalous > 0.0 && degraded < 0.0 {
      assert MixState(0.0, degraded, anomalous) == Some(Degraded);
    } else if anomalous > 0.0 && degraded > 0.0 {
      ReciprocalOrder(anomalous, degraded);
      ReciprocalOrder(degraded, anomalous);
      ReciprocalOrder(degraded, 1.0);
      if anomalous < degraded && degraded >= 1.0 {
        assert MixState(1.0 / degraded, degraded, anomalous) == Some(Degraded);
      }
    }
  }

  lemma ReciprocalSign(x: real)
    requires x != 0.0
    ensures 1.0 / x > 0.0 <==> x > 0.0
  {
    assert (1.0 / x) * x == 1.0;
  }

  // ----- The rules that loop -----

  /** The call count of a window, added up tool by tool. */
  method CountCalls(tools: Tools) returns (total: nat)
    ensures total as real == CallCount(tools)
  {
    total := 0;
    var todo := tools.Keys;
    while todo != {}
      invariant todo <= tools.Keys
      invariant total as real + Sum(todo, CallsOf(tools)) == CallCount(tools)
    {
      var t :| t in todo;
      SumPick(todo, CallsOf(tools), t);
      total := total + tools[t].calls;
      todo := todo - {t};
    }
  }

  lemma GapValue(a: Tools, b: Tools, t: ToolId, n: real, m: real)
    requires n == CallCount(a) && m == CallCount(b)
    ensures Abs(Share(CallsOf(a)(t), n) - Share(CallsOf(b)(t), m)) == Gap(SharesOf(a), SharesOf(b))(t)
  {
  }

  method ToolMixDistance(candidate: Tools, baseline: Tools) returns (distance: real)
    ensures distance == MixDistance(candidate, baseline)
  {
    var n := CountCalls(candidate);
    var m := CountCalls(baseline);
    var sum := 0.0;
    ghost var gap := Gap(SharesOf(candidate), SharesOf(baseline));
    var todo := candidate.Keys + baseline.Keys;
    while todo != {}
      invariant sum + Sum(todo, gap) == 2.0 * MixDistance(candidate, baseline)
    {
      var t :| t in todo;
      SumPick(todo, gap, t);
      GapValue(candidate, baseline, t, n as real, m as real);
      sum := sum + Abs(Share(CallsOf(candidate)(t), n as real) - Share(CallsOf(baseline)(t), m as real));
      todo := todo - {t};
    }
    return sum / 2.0;
  }

  /** Normal without two mixes to compare; otherwise the distance judged against the reused ratios. */
  method ToolPatternShift(candidate: Tools, baseline: Option<Tools>, degraded: real, anomalous: real)
    returns (state: Option<State>)
    ensures baseline.None? || baseline.value == map[] || candidate == map[] ==> state == Some(Normal)
    ensures baseline.Some? && baseline.value != map[] && candidate != map[] ==>
              state == MixState(MixDistance(candidate, baseline.value), degraded, anomalous)
  {
    if baseline.None? || baseline.value == map[] || candidate == map[] {
      return Some(Normal);
    }
    var distance := ToolMixDistance(candidate, baseline.value);
    return MixState(distance, degraded, anomalous);
  }

  datatype Thresholds = Thresholds(degraded: real, anomalous: real, margin: real, minCalls: nat)

  function ToolState(t: ToolId, candidate: Tools, baseline: Option<Tools>, th: Thresholds): State
    requires t in candidate && candidate[t].calls > 0
  {
    var rate := candidate[t].failures as real / candidate[t].calls as real;
    var base := if baseline.Some? && t in baseline.value
                   && baseline.value[t].calls >= th.minCalls && baseline.value[t].calls > 0
                then Some(baseline.value[t].failures as real / baseline.value[t].calls as real) else None;
    RateState(rate, base, th.degraded, th.anomalous, th.margin)
  }

  predicate Eligible(t: ToolId, candidate: Tools, th: Thresholds) {
    t in candidate && candidate[t].calls >= th.minCalls
  }

  /** Position `i` holds the worst tool of `order`, the first of its severity. */
  ghost predicate WorstAt(order: seq<ToolId>, i: int, candidate: Tools, baseline: Option<Tools>, th: Thresholds,
                          state: State)
    requires forall t :: t in candidate ==> candidate[t].calls > 0
  {
    && 0 <= i < |order| && Eligible(order[i], candidate, th)
    && state == ToolState(order[i], candidate, baseline, th)
    && forall j :: 0 <= j < |order| && Eligible(order[j], candidate, th) ==>
         var other := Severity(ToolState(order[j], candidate, baseline, th));
         other <= Severity(state) && (j < i ==> other < Severity(state))
  }

  /** How one tool is rated: its failures per call against both thresholds, and against its own earlier rate when it was
      called often enough for that. */
  lemma ToolReachedIff(t: ToolId, candidate: Tools, baseline: Option<Tools>, th: Thresholds)
    requires t in candidate && candidate[t].calls > 0
    ensures var s, f := ToolState(t, candidate, baseline, th), candidate[t].failures as real;
            var c := candidate[t].calls as real;
            var moved := baseline.Some? && t in baseline.value && baseline.value[t].calls >= th.minCalls
                         && baseline.value[t].calls > 0
                         && f / c >= baseline.value[t].failures as real / baseline.value[t].calls as real + th.margin;
            && (s == Anomalous <==> f >= th.anomalous * c)
            && (s == Degraded <==> f < th.anomalous * c && (f >= th.degraded * c || moved))
            && (s == Normal <==> f < th.anomalous * c && f < th.degraded * c && !moved)
  {
    var f, c := candidate[t].failures as real, candidate[t].calls as real;
    RatioAtLeast(f, c, th.anomalous);
    RatioAtLeast(f, c, th.degraded);
  }

  /** Among the tools called often enough, one is rated like this. */
  ghost predicate SomeRated(candidate: Tools, baseline: Option<Tools>, th: Thresholds, s: State)
    requires forall t :: t in candidate ==> candidate[t].calls > 0
  {
    exists t :: t in candidate && candidate[t].calls >= th.minCalls && ToolState(t, candidate, baseline, th) == s
  }

  /** The worst tool speaks for all: anomalous if any is, degraded if any is and none is anomalous. */
  lemma WorstSpeaksForAll(order: seq<ToolId>, i: int, candidate: Tools, baseline: Option<Tools>, th: Thresholds,
                          state: State)
    requires forall t :: t in order <==> t in candidate
    requires forall t :: t in candidate ==> candidate[t].calls > 0
    requires WorstAt(order, i, candidate, baseline, th, state)
    ensures state == Anomalous <==> SomeRated(candidate, baseline, th, Anomalous)
    ensures state == Degraded <==>
            SomeRated(candidate, baseline, th, Degraded) && !SomeRated(candidate, baseline, th, Anomalous)
    ensures state in {Normal, Degraded, Anomalous}
  {
    assert order[i] in order;
    ToolReachedIff(order[i], candidate, baseline, th);
    forall t | t in candidate && candidate[t].calls >= th.minCalls
      ensures Severity(ToolState(t, candidate, baseline, th)) <= Severity(state)
    {
      var j :| 0 <= j < |order| && order[j] == t;
      assert Eligible(order[j], candidate, th);
    }
  }

  /** Each tool rated on its own; the finding names the worst. `order` lists the tools sorted by id; every tool
      in a window was called at least once, being there because of a call. */
  method ToolFailureSpike(order: seq<ToolId>, candidate: Tools, baseline: Option<Tools>, th: Thresholds)
    returns (state: State, worst: Option<ToolId>)
    requires forall t :: t in order <==> t in candidate
    requires forall t :: t in candidate ==> candidate[t].calls > 0
    ensures worst.None? ==> state == Normal && forall t :: t in candidate ==> candidate[t].calls < th.minCalls
    ensures worst.Some? ==> exists i :: WorstAt(order, i, candidate, baseline, th, state) && worst.value == order[i]
  {
    state, worst := Normal, None;
    ghost var at := 0;
    for i := 0 to |order|
      invariant worst.None? ==> state == Normal && forall j :: 0 <= j < i ==> !Eligible(order[j], candidate, th)
      invariant worst.Some? ==> WorstAt(order[..i], at, candidate, baseline, th, state) && worst.value == order[at]
    {
      var t := order[i];
      assert t in order;
      if Eligible(t, candidate, th) {
        var result := ToolState(t, candidate, baseline, th);
        if worst.None? || Severity(result) > Severity(state) {
          state, worst, at := result, Some(t), i;
        }
      }
    }
    assert order[..|order|] == order;
  }
}
