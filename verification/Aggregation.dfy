/** Rolling per-case scores up into a run-level aggregate, and the gate on it. */
module Aggregation {
  import opened Wrappers
  import opened Stats
  import opened Scoring

  datatype Method = PassRate | Mean | P50 | P95 | MinOf | SumOf
  datatype OnError = CountAsFail | Exclude
  datatype AggregationState = InProgress | Partial | Complete

  datatype Gate = Gate(min: Option<real>, max: Option<real>)

  datatype Metric = Metric(id: string, rollup: Method, onError: OnError, gate: Option<Gate>, gateSafe: bool)

  datatype Aggregate = Aggregate(
    value: Option<real>, passRate: Option<real>, mean: Option<real>,
    n: nat, denominator: nat, errorN: nat, skippedN: nat, state: AggregationState)

  function Keep(): CaseScore -> bool { (s: CaseScore) => !s.onRetryOverride }
  function Has(status: CaseStatus): CaseScore -> bool { (s: CaseScore) => s.status == status }

  function Counts(onError: OnError): CaseScore -> bool {
    (s: CaseScore) => s.status.Pass? || s.status.Fail? || (s.status.Error? && onError.CountAsFail?)
  }

  /** What a case contributes: its score, or 0 where an error counts as a failure. */
  function Contribution(): CaseScore -> real { (s: CaseScore) => if s.score.Some? then s.score.value else 0.0 }

  function Retained(scores: seq<CaseScore>): seq<CaseScore> { Filter(Keep(), scores) }

  function Denominator(onError: OnError, scores: seq<CaseScore>): seq<CaseScore> {
    Filter(Counts(onError), Retained(scores))
  }

  function Values(onError: OnError, scores: seq<CaseScore>): seq<real> {
    Map(Contribution(), Denominator(onError, scores))
  }

  function PassShare(onError: OnError, scores: seq<CaseScore>): real
    requires Denominator(onError, scores) != []
  {
    var d := Denominator(onError, scores);
    |Filter(Has(Pass), d)| as real / |d| as real
  }

  function Rollup(m: Method, passRate: real, values: seq<real>): real
    requires values != []
  {
    match m
    case PassRate => passRate
    case Mean => Sum(values) / |values| as real
    case P50 => Percentile(values, 0.50)
    case P95 => Percentile(values, 0.95)
    case MinOf => Least(values)
    case SumOf => Sum(values)
  }

  function StateOf(n: nat, expected: int, inProgress: bool): AggregationState {
    if inProgress then InProgress else if n < expected then Partial else Complete
  }

  /** None stands for the exception raised when a score of another metric is passed in. */
  function AggregateMetric(metric: Metric, scores: seq<CaseScore>, expected: int, inProgress: bool): Option<Aggregate> {
    if exists s | s in scores :: s.metric != metric.id then None
    else
      var retained := Retained(scores);
      var n := |retained|;
      var errorN, skippedN := |Filter(Has(Error), retained)|, |Filter(Has(Skipped), retained)|;
      var state := StateOf(n, expected, inProgress);
      if Denominator(metric.onError, scores) == [] then
        Some(Aggregate(None, None, None, n, 0, errorN, skippedN, state))
      else
        var values := Values(metric.onError, scores);
        var passRate := PassShare(metric.onError, scores);
        Some(Aggregate(Some(Rollup(metric.rollup, passRate, values)), Some(passRate), Some(Sum(values) / |values| as real),
                       n, |values|, errorN, skippedN, state))
  }

  datatype GateStatus = GatePass | GateFail | NotApplicable

  /** A value meets a gate if it was measured and lies within the gate's bounds; without a gate anything does. */
  predicate MeetsGate(gate: Option<Gate>, value: Option<real>) {
    gate.None? ||
    (value.Some? && (gate.value.min.Some? ==> gate.value.min.value <= value.value)
     && (gate.value.max.Some? ==> value.value <= gate.value.max.value))
  }

  /** The gate on an aggregated value; a gated metric that was not measured fails. */
  function GateOf(metric: Metric, value: Option<real>): (g: GateStatus)
    ensures g.NotApplicable? <==> !metric.gateSafe
    ensures g.GatePass? <==> metric.gateSafe && MeetsGate(metric.gate, value)
  {
    if !metric.gateSafe then NotApplicable
    else
      match metric.gate
      case None => GatePass
      case Some(gate) =>
        if value.None? then GateFail
        else if (gate.min.Some? && value.value < gate.min.value) || (gate.max.Some? && value.value > gate.max.value) then GateFail
        else GatePass
  }

  /** A gate fails when nothing was measured: no score that counts, and so no value. */
  lemma UnmeasuredFailsItsGate(metric: Metric, scores: seq<CaseScore>, expected: int, inProgress: bool)
    requires metric.gateSafe && metric.gate.Some? && AggregateMetric(metric, scores, expected, inProgress).Some?
    requires forall s | s in scores :: s.onRetryOverride || s.status.Skipped? || (s.status.Error? && metric.onError.Exclude?)
    ensures GateOf(metric, AggregateMetric(metric, scores, expected, inProgress).value.value) == GateFail
  {
    FilterKeepsOnly(Keep(), scores);
    forall s | s in Retained(scores) ensures !Counts(metric.onError)(s) {
      assert s in scores && !s.onRetryOverride;
    }
    FilterNothing(Counts(metric.onError), Retained(scores));
  }

  lemma {:induction false} FilterNothing<T>(p: T -> bool, xs: seq<T>)
    requires forall x | x in xs :: !p(x)
    ensures Filter(p, xs) == []
  {
    if xs != [] {
      FilterNothing(p, xs[..|xs| - 1]);
      assert xs[|xs| - 1] in xs;
    }
  }

  // ---- Order does not matter -----------------------------------------------------------------

  lemma RetainedPermutes(s: seq<CaseScore>, t: seq<CaseScore>)
    requires multiset(s) == multiset(t)
    ensures multiset(Retained(s)) == multiset(Retained(t)) && |Retained(s)| == |Retained(t)|
  {
    FilterPermutes(Keep(), s, t);
    CountPermutes(Keep(), s, t);
  }

  lemma DenominatorPermutes(onError: OnError, s: seq<CaseScore>, t: seq<CaseScore>)
    requires multiset(s) == multiset(t)
    ensures multiset(Denominator(onError, s)) == multiset(Denominator(onError, t))
    ensures |Denominator(onError, s)| == |Denominator(onError, t)|
    ensures multiset(Values(onError, s)) == multiset(Values(onError, t))
  {
    RetainedPermutes(s, t);
    FilterPermutes(Counts(onError), Retained(s), Retained(t));
    CountPermutes(Counts(onError), Retained(s), Retained(t));
    MapPermutes(Contribution(), Denominator(onError, s), Denominator(onError, t));
  }

  lemma RollupPermutes(m: Method, passRate: real, xs: seq<real>, ys: seq<real>)
    requires multiset(xs) == multiset(ys) && xs != []
    ensures ys != [] && Rollup(m, passRate, xs) == Rollup(m, passRate, ys)
  {
    SameMultisetSameLength(xs, ys);
    SumPermutes(xs, ys);
    PercentilePermutes(xs, ys, 0.50);
    PercentilePermutes(xs, ys, 0.95);
    LeastPermutes(xs, ys);
  }

  lemma SameMembers<T>(s: seq<T>, t: seq<T>)
    requires multiset(s) == multiset(t)
    ensures forall x :: x in s <==> x in t
  {
    assert forall x :: x in s <==> x in multiset(s);
    assert forall x :: x in t <==> x in multiset(t);
  }

  /** The aggregate does not depend on the order in which scores land. */
  lemma AggregatePermutes(metric: Metric, s: seq<CaseScore>, t: seq<CaseScore>, expected: int, inProgress: bool)
    requires multiset(s) == multiset(t)
    ensures AggregateMetric(metric, s, expected, inProgress) == AggregateMetric(metric, t, expected, inProgress)
  {
    SameMembers(s, t);
    RetainedPermutes(s, t);
    CountPermutes(Has(Error), Retained(s), Retained(t));
    CountPermutes(Has(Skipped), Retained(s), Retained(t));
    DenominatorPermutes(metric.onError, s, t);
    if Denominator(metric.onError, s) != [] {
      CountPermutes(Has(Pass), Denominator(metric.onError, s), Denominator(metric.onError, t));
      SumPermutes(Values(metric.onError, s), Values(metric.onError, t));
      RollupPermutes(metric.rollup, PassShare(metric.onError, s), Values(metric.onError, s), Values(metric.onError, t));
    }
  }

  /** A retry's score changes nothing, wherever it lands. */
  lemma AggregateIgnoresRetries(metric: Metric, before: seq<CaseScore>, retry: CaseScore,
      after: seq<CaseScore>, expected: int, inProgress: bool)
    requires retry.onRetryOverride && retry.metric == metric.id
    ensures AggregateMetric(metric, before + [retry] + after, expected, inProgress)
         == AggregateMetric(metric, before + after, expected, inProgress)
  {
    FilterConcat(Keep(), before + [retry], after);
    FilterConcat(Keep(), before, [retry]);
    FilterConcat(Keep(), before, after);
    assert Filter(Keep(), [retry]) == [];
    assert Retained(before + [retry] + after) == Retained(before + after);
    assert forall s :: s in before + [retry] + after <==> s in before + after || s == retry;
  }

  // ---- Bounds ----------------------------------------------------------------------------------

  lemma {:induction false} FilterKeepsOnly<T>(p: T -> bool, xs: seq<T>)
    ensures forall i | 0 <= i < |Filter(p, xs)| :: Filter(p, xs)[i] in xs && p(Filter(p, xs)[i])
    ensures |Filter(p, xs)| <= |xs|
  {
    if xs != [] {
      var front := xs[..|xs| - 1];
      FilterKeepsOnly(p, front);
      assert forall x | x in front :: x in xs;
    }
  }

  lemma {:induction false} StatusesPartition(xs: seq<CaseScore>)
    ensures |xs| == |Filter(Has(Pass), xs)| + |Filter(Has(Fail), xs)|
                  + |Filter(Has(Error), xs)| + |Filter(Has(Skipped), xs)|
  {
    if xs != [] {
      StatusesPartition(xs[..|xs| - 1]);
    }
  }

  lemma ValuesAreBounded(onError: OnError, scores: seq<CaseScore>)
    requires forall s | s in scores :: WellScored(s)
    ensures forall i | 0 <= i < |Values(onError, scores)| :: 0.0 <= Values(onError, scores)[i] <= 1.0
  {
    FilterKeepsOnly(Keep(), scores);
    FilterKeepsOnly(Counts(onError), Retained(scores));
    var d := Denominator(onError, scores);
    forall i | 0 <= i < |Values(onError, scores)| ensures 0.0 <= Values(onError, scores)[i] <= 1.0 {
      assert d[i] in Retained(scores);
      assert WellScored(d[i]);
    }
  }

  /** Every score is accounted for: passes, failures, errors and skips add up to the sample. */
  lemma NothingVanishes(metric: Metric, scores: seq<CaseScore>, expected: int, inProgress: bool)
    requires AggregateMetric(metric, scores, expected, inProgress).Some?
    ensures var a, r := AggregateMetric(metric, scores, expected, inProgress).value, Retained(scores);
            a.n == |Filter(Has(Pass), r)| + |Filter(Has(Fail), r)| + a.errorN + a.skippedN
  {
    StatusesPartition(Retained(scores));
  }

  lemma PassShareBounds(onError: OnError, scores: seq<CaseScore>)
    requires Denominator(onError, scores) != []
    ensures 0.0 <= PassShare(onError, scores) <= 1.0
  {
    var d := Denominator(onError, scores);
    FilterKeepsOnly(Has(Pass), d);
    RatioBounds(|Filter(Has(Pass), d)| as real, |d| as real);
  }

  /** Every aggregate but a sum lies in [0,1]. */
  lemma AggregateBounds(metric: Metric, scores: seq<CaseScore>, expected: int, inProgress: bool)
    requires AggregateMetric(metric, scores, expected, inProgress).Some?
    requires forall s | s in scores :: WellScored(s)
    ensures var a := AggregateMetric(metric, scores, expected, inProgress).value;
            && (a.passRate.Some? <==> a.denominator > 0)
            && (a.passRate.Some? ==> 0.0 <= a.passRate.value <= 1.0 && 0.0 <= a.mean.value <= 1.0)
            && (a.value.Some? && metric.rollup != SumOf ==> 0.0 <= a.value.value <= 1.0)
            && (a.value.Some? && metric.rollup == SumOf ==> 0.0 <= a.value.value <= a.denominator as real)
  {
    if Denominator(metric.onError, scores) != [] {
      var values := Values(metric.onError, scores);
      PassShareBounds(metric.onError, scores);
      ValuesAreBounded(metric.onError, scores);
      MeanBounds(values);
      SumBounds(values);
      PercentileRank(values, 0.50);
      PercentileRank(values, 0.95);
      LeastIsLeast(values);
    }
  }

  /** The order statistics are in order: minimum, median, 95th percentile. */
  lemma OrderStatisticsAreOrdered(values: seq<real>, passRate: real)
    requires values != []
    ensures Rollup(MinOf, passRate, values) <= Rollup(P50, passRate, values) <= Rollup(P95, passRate, values)
  {
    PercentileRank(values, 0.50);
    LeastIsLeast(values);
    PercentileIsMonotone(values, 0.50, 0.95);
  }

  lemma {:induction false} FilterInside<T(!new)>(p: T -> bool, q: T -> bool, xs: seq<T>)
    requires forall x :: p(x) ==> q(x)
    ensures Filter(p, Filter(q, xs)) == Filter(p, xs)
  {
    if xs != [] {
      var front, last := xs[..|xs| - 1], xs[|xs| - 1];
      FilterInside(p, q, front);
      if q(last) {
        FilterSnoc(p, Filter(q, front), last);
      } else {
        assert !p(last) && Filter(q, xs) == Filter(q, front) && Filter(p, xs) == Filter(p, front);
      }
    }
  }

  lemma {:induction false} FilterIsMonotone<T(!new)>(p: T -> bool, q: T -> bool, xs: seq<T>)
    requires forall x :: p(x) ==> q(x)
    ensures |Filter(p, xs)| <= |Filter(q, xs)|
  {
    if xs != [] {
      FilterIsMonotone(p, q, xs[..|xs| - 1]);
    }
  }

  /** Excluding errors can only raise the pass rate: an error never hides behind on_error = fail. */
  lemma ExcludingErrorsRaisesPassRate(scores: seq<CaseScore>)
    requires Denominator(Exclude, scores) != []
    ensures Denominator(CountAsFail, scores) != [] && PassShare(CountAsFail, scores) <= PassShare(Exclude, scores)
  {
    var r := Retained(scores);
    FilterInside(Has(Pass), Counts(Exclude), r);
    FilterInside(Has(Pass), Counts(CountAsFail), r);
    FilterIsMonotone(Counts(Exclude), Counts(CountAsFail), r);
    SmallerShare(|Filter(Has(Pass), r)| as real, |Denominator(Exclude, scores)| as real, |Denominator(CountAsFail, scores)| as real);
  }

  lemma SmallerShare(x: real, m: real, n: real)
    requires 0.0 <= x && 0.0 < m <= n
    ensures x / n <= x / m
  {
    assert x / n * n == x && x / m * m == x;
    assert x / m >= 0.0;
    assert x / m * n >= x;
  }
}
