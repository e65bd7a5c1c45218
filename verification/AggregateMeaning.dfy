/**
 What an aggregate reports, said of the positions of the scores: how many count, how many of them
 pass, what they add up to, and which of them the order statistics pick.
*/
module AggregateMeaning {
  import opened Wrappers
  import opened Stats
  import opened Scoring
  import opened Aggregation

  /** A first attempt's score that decides the pass rate: a pass, a failure, or an error that counts as one. */
  ghost predicate Counted(onError: OnError, s: CaseScore) {
    !s.onRetryOverride && (s.status == Pass || s.status == Fail || (s.status == Error && onError == CountAsFail))
  }

  /** What a score adds: its value, and nothing if it has none. */
  ghost function Worth(s: CaseScore): real {
    match s.score
    case Some(x) => x
    case None => 0.0
  }

  /** The positions of the scores that satisfy a test. */
  ghost function Where(test: CaseScore -> bool, scores: seq<CaseScore>): set<nat> { set i: nat | i < |scores| && test(scores[i]) }

  ghost function IsFirst(): CaseScore -> bool { (s: CaseScore) => !s.onRetryOverride }
  ghost function IsFirstWith(status: CaseStatus): CaseScore -> bool { (s: CaseScore) => !s.onRetryOverride && s.status == status }

  ghost function IsCounted(onError: OnError, test: real -> bool): CaseScore -> bool {
    (s: CaseScore) => Counted(onError, s) && test(Worth(s))
  }

  ghost function FirstAttempts(scores: seq<CaseScore>): set<nat> { Where(IsFirst(), scores) }

  ghost function FirstAttemptsWith(scores: seq<CaseScore>, status: CaseStatus): set<nat> { Where(IsFirstWith(status), scores) }

  /** The counted scores whose worth satisfies a test. */
  ghost function CountedWith(onError: OnError, scores: seq<CaseScore>, test: real -> bool): set<nat> {
    Where(IsCounted(onError, test), scores)
  }

  /** The sum of what the counted scores are worth. */
  ghost function Total(onError: OnError, scores: seq<CaseScore>): real {
    if scores == [] then 0.0
    else Worth(scores[0]) * (if Counted(onError, scores[0]) then 1.0 else 0.0) + Total(onError, scores[1..])
  }

  ghost function All(): real -> bool { (x: real) => true }

  /** The value is worth no more than any counted score and as much as one of them. */
  ghost predicate IsLeast(onError: OnError, scores: seq<CaseScore>, v: real) {
    CountedWith(onError, scores, Under(v)) == {} && CountedWith(onError, scores, AtMost(v)) != {}
  }

  /** At least the share p of the counted scores is worth at most v, and less than p is worth less. */
  ghost predicate IsPercentile(onError: OnError, scores: seq<CaseScore>, p: real, v: real) {
    BracketsShare(|CountedWith(onError, scores, Under(v))|, |CountedWith(onError, scores, AtMost(v))|, p,
                  |CountedWith(onError, scores, All())|)
  }

  // ---- Counting ----------------------------------------------------------------------------------

  lemma RetainedSnoc(front: seq<CaseScore>, s: CaseScore)
    ensures Retained(front + [s]) == Retained(front) + if s.onRetryOverride then [] else [s]
  {
    FilterSnoc(Keep(), front, s);
  }

  lemma DenominatorSnoc(onError: OnError, front: seq<CaseScore>, s: CaseScore)
    ensures Denominator(onError, front + [s]) == if Counted(onError, s) then Denominator(onError, front) + [s] else Denominator(onError, front)
  {
    FilterTwice(Keep(), Counts(onError), front, s);
    hide Filter;
  }

  lemma FilterTwice<T>(p: T -> bool, q: T -> bool, xs: seq<T>, x: T)
    ensures Filter(q, Filter(p, xs + [x])) == if p(x) && q(x) then Filter(q, Filter(p, xs)) + [x] else Filter(q, Filter(p, xs))
  {
    FilterSnoc(p, xs, x);
    FilterSnoc(q, Filter(p, xs), x);
    hide Filter;
  }

  lemma MapSnoc<S, T>(f: S -> T, xs: seq<S>, x: S)
    ensures Map(f, xs + [x]) == Map(f, xs) + [f(x)]
  {
  }

  lemma ValuesSnoc(onError: OnError, front: seq<CaseScore>, s: CaseScore)
    ensures Values(onError, front + [s]) == if Counted(onError, s) then Values(onError, front) + [Worth(s)] else Values(onError, front)
  {
    DenominatorSnoc(onError, front, s);
    MapSnoc(Contribution(), Denominator(onError, front), s);
    hide Denominator, Counted, Map;
  }

  lemma WhereSnoc(test: CaseScore -> bool, front: seq<CaseScore>, s: CaseScore)
    ensures |Where(test, front + [s])| == |Where(test, front)| + if test(s) then 1 else 0
  {
    assert Where(test, front + [s]) == Where(test, front) + if test(s) then {|front|} else {};
  }

  lemma {:induction false} FirstAttemptsCount(scores: seq<CaseScore>, status: CaseStatus)
    ensures |FirstAttempts(scores)| == |Retained(scores)|
    ensures |FirstAttemptsWith(scores, status)| == |Filter(Has(status), Retained(scores))|
  {
    if scores != [] {
      var front, s := scores[..|scores| - 1], scores[|scores| - 1];
      assert scores == front + [s];
      FirstAttemptsCount(front, status);
      RetainedSnoc(front, s);
      FilterSnoc(Has(status), Retained(front), s);
      WhereSnoc(IsFirst(), front, s);
      WhereSnoc(IsFirstWith(status), front, s);
      hide Where, Retained, Filter;
      assert Retained(front) + [] == Retained(front);
    }
  }

  lemma {:induction false} CountedCount(onError: OnError, scores: seq<CaseScore>, test: real -> bool)
    ensures |CountedWith(onError, scores, test)| == |Filter(test, Values(onError, scores))|
  {
    if scores != [] {
      var front, s := scores[..|scores| - 1], scores[|scores| - 1];
      assert scores == front + [s];
      CountedCount(onError, front, test);
      ValuesSnoc(onError, front, s);
      FilterSnoc(test, Values(onError, front), Worth(s));
      WhereSnoc(IsCounted(onError, test), front, s);
      hide Where, Values, Filter, Counted;
    }
  }

  lemma {:induction false} FilterAll(xs: seq<real>)
    ensures Filter(All(), xs) == xs
  {
    if xs != [] {
      FilterAll(xs[..|xs| - 1]);
    }
  }

  lemma {:induction false} TotalSnoc(onError: OnError, front: seq<CaseScore>, s: CaseScore)
    ensures Total(onError, front + [s]) == Total(onError, front) + if Counted(onError, s) then Worth(s) else 0.0
  {
    if front == [] {
      assert front + [s] == [s] && [s][1..] == [];
    } else {
      assert (front + [s])[1..] == front[1..] + [s];
      TotalSnoc(onError, front[1..], s);
    }
  }

  lemma SumSnoc(xs: seq<real>, x: real)
    ensures Sum(xs + [x]) == Sum(xs) + x
  {
    assert (xs + [x])[..|xs|] == xs;
  }

  lemma {:induction false} TotalIsSum(onError: OnError, scores: seq<CaseScore>)
    ensures Total(onError, scores) == Sum(Values(onError, scores))
  {
    if scores != [] {
      var front, s := scores[..|scores| - 1], scores[|scores| - 1];
      assert scores == front + [s];
      TotalIsSum(onError, front);
      TotalSnoc(onError, front, s);
      ValuesSnoc(onError, front, s);
      SumSnoc(Values(onError, front), Worth(s));
      hide Sum, Values, Total;
    }
  }

  // ---- The aggregate -----------------------------------------------------------------------------

  lemma Divided(x: real, n: nat)
    requires n > 0
    ensures x / n as real * n as real == x
  {
  }

  /** The rollup of the counted scores, by its own definition. */
  ghost predicate RollsUp(m: Method, onError: OnError, scores: seq<CaseScore>, v: real) {
    var n := |CountedWith(onError, scores, All())|;
    match m
    case PassRate => v * n as real == |FirstAttemptsWith(scores, Pass)| as real
    case Mean => v * n as real == Total(onError, scores)
    case P50 => IsPercentile(onError, scores, 0.50, v)
    case P95 => IsPercentile(onError, scores, 0.95, v)
    case MinOf => IsLeast(onError, scores, v)
    case SumOf => v == Total(onError, scores)
  }

  lemma PassesOfCounted(onError: OnError, scores: seq<CaseScore>)
    ensures |Filter(Has(Pass), Denominator(onError, scores))| == |FirstAttemptsWith(scores, Pass)|
  {
    FilterInside(Has(Pass), Counts(onError), Retained(scores));
    FirstAttemptsCount(scores, Pass);
  }

  lemma PercentileOfCounted(onError: OnError, scores: seq<CaseScore>, p: real)
    requires Values(onError, scores) != [] && 0.0 < p <= 1.0
    ensures IsPercentile(onError, scores, p, Percentile(Values(onError, scores), p))
  {
    var values := Values(onError, scores);
    var v := Percentile(values, p);
    PercentileIsNearestRank(values, p);
    CountedCount(onError, scores, Under(v));
    CountedCount(onError, scores, AtMost(v));
    CountedCount(onError, scores, All());
    FilterAll(values);
  }

  lemma LeastOfCounted(onError: OnError, scores: seq<CaseScore>)
    requires Values(onError, scores) != []
    ensures IsLeast(onError, scores, Least(Values(onError, scores)))
  {
    var values := Values(onError, scores);
    var v := Least(values);
    LeastIsLeast(values);
    CountedCount(onError, scores, Under(v));
    CountedCount(onError, scores, AtMost(v));
    FilterNothing(Under(v), values);
    var i :| 0 <= i < |values| && values[i] == v;
    FilterHas(AtMost(v), values, i);
  }

  lemma {:induction false} FilterHas(test: real -> bool, xs: seq<real>, i: nat)
    requires i < |xs| && test(xs[i])
    ensures Filter(test, xs) != []
  {
    if i < |xs| - 1 {
      FilterHas(test, xs[..|xs| - 1], i);
    }
  }

  lemma CountedAre(onError: OnError, scores: seq<CaseScore>)
    ensures |CountedWith(onError, scores, All())| == |Denominator(onError, scores)| == |Values(onError, scores)|
  {
    CountedCount(onError, scores, All());
    FilterAll(Values(onError, scores));
  }

  lemma PassShareMeans(onError: OnError, scores: seq<CaseScore>)
    requires Denominator(onError, scores) != []
    ensures RollsUp(PassRate, onError, scores, PassShare(onError, scores))
  {
    CountedAre(onError, scores);
    PassesOfCounted(onError, scores);
    Divided(|Filter(Has(Pass), Denominator(onError, scores))| as real, |Denominator(onError, scores)|);
    hide CountedWith, FirstAttemptsWith, Filter, Denominator;
  }

  lemma MeanMeans(onError: OnError, scores: seq<CaseScore>)
    requires Denominator(onError, scores) != []
    ensures RollsUp(Mean, onError, scores, Sum(Values(onError, scores)) / |Values(onError, scores)| as real)
    ensures RollsUp(SumOf, onError, scores, Sum(Values(onError, scores)))
  {
    CountedAre(onError, scores);
    TotalIsSum(onError, scores);
    Divided(Sum(Values(onError, scores)), |Values(onError, scores)|);
    hide CountedWith, Total, Sum, Values, Denominator;
  }

  lemma RollupMeans(m: Method, onError: OnError, scores: seq<CaseScore>)
    requires Denominator(onError, scores) != []
    ensures RollsUp(m, onError, scores, Rollup(m, PassShare(onError, scores), Values(onError, scores)))
  {
    PassShareMeans(onError, scores);
    MeanMeans(onError, scores);
    PercentileOfCounted(onError, scores, 0.50);
    PercentileOfCounted(onError, scores, 0.95);
    LeastOfCounted(onError, scores);
    hide IsPercentile, IsLeast, Total, CountedWith, FirstAttemptsWith, Filter, Sum, Denominator, Least, Percentile, PassShare;
  }

  /**
   The whole aggregate. It is refused exactly if a score is of another metric. Otherwise it counts the
   first attempts, the errors and the skips among them and those that decide; the rates exist exactly
   if any decides, and are then what the rollup asks for; and it is partial exactly if it is not in
   progress and short of the expected number.
  */
  lemma AggregateMeans(metric: Metric, scores: seq<CaseScore>, expected: int, inProgress: bool)
    ensures var r, counted := AggregateMetric(metric, scores, expected, inProgress), CountedWith(metric.onError, scores, All());
            && (r.None? <==> exists s | s in scores :: s.metric != metric.id)
            && (r.Some? ==>
                  && r.value.n == |FirstAttempts(scores)| && r.value.denominator == |counted|
                  && r.value.errorN == |FirstAttemptsWith(scores, Error)| && r.value.skippedN == |FirstAttemptsWith(scores, Skipped)|
                  && (r.value.state.InProgress? <==> inProgress)
                  && (r.value.state.Partial? <==> !inProgress && r.value.n < expected)
                  && (if counted == {} then r.value.value.None? && r.value.passRate.None? && r.value.mean.None?
                      else
                        && r.value.value.Some? && r.value.passRate.Some? && r.value.mean.Some?
                        && RollsUp(metric.rollup, metric.onError, scores, r.value.value.value)
                        && RollsUp(PassRate, metric.onError, scores, r.value.passRate.value)
                        && RollsUp(Mean, metric.onError, scores, r.value.mean.value)))
  {
    FirstAttemptsCount(scores, Error);
    FirstAttemptsCount(scores, Skipped);
    CountedCount(metric.onError, scores, All());
    FilterAll(Values(metric.onError, scores));
    if Denominator(metric.onError, scores) != [] {
      RollupMeans(metric.rollup, metric.onError, scores);
      PassShareMeans(metric.onError, scores);
      MeanMeans(metric.onError, scores);
    }
    hide RollsUp, CountedWith, FirstAttempts, FirstAttemptsWith, Filter, Sum, Denominator, PassShare, Retained;
  }
}
