/**
 What a finished run has counted: for every metric the evaluator's verdict on every repeat of every
 case, each once, however often the run was cancelled and resumed on the way.
*/
module SessionTotals {
  import opened Wrappers
  import opened Stats
  import opened Scoring
  import opened Aggregation
  import opened AggregateMeaning
  import opened Sessions
  import opened SessionMeaning
  import opened SessionReruns
  import opened SessionResume

  /** Every first attempt leaves a trace, and the metric's evaluator has a verdict on it. */
  ghost predicate Judged(p: Plan, m: Metric, c: CaseId) {
    forall rep: nat | rep < p.repeats :: HasVerdict(p, m, c, rep)
  }

  ghost predicate HasVerdict(p: Plan, m: Metric, c: CaseId, rep: nat) {
    var how := p.agent(AttemptKey(c, rep, 0));
    how.Done? && p.live(m, c, how.trace).Some?
  }

  /** The score of the metric for a repeat of a case: the verdict on the trace of its first attempt. */
  ghost function VerdictScore(p: Plan, m: Metric, c: CaseId, rep: nat): CaseScore
    requires HasVerdict(p, m, c, rep)
  {
    var v := p.live(m, c, p.agent(AttemptKey(c, rep, 0)).trace).value;
    CaseScore(m.id, c, v.score, v.passed, v.status, false)
  }

  ghost function CaseScores(p: Plan, m: Metric, c: CaseId, n: nat): seq<CaseScore>
    requires n <= p.repeats && Judged(p, m, c)
  {
    seq(n, rep requires 0 <= rep < n => VerdictScore(p, m, c, rep))
  }

  /** The scores of the first n cases, repeat by repeat. */
  ghost function AllScores(p: Plan, m: Metric, n: nat): seq<CaseScore>
    requires n <= |p.cases| && forall c | c in p.cases :: Judged(p, m, c)
  {
    if n == 0 then [] else AllScores(p, m, n - 1) + CaseScores(p, m, p.cases[n - 1], p.repeats)
  }

  // ---- Nothing is left out -------------------------------------------------------------------------

  lemma {:induction false} QuietFirsts(p: Plan, c: CaseId, first: nat, last: nat, rep: nat)
    requires first <= rep < last && !CaseBatch(p, c, first, last).raised
    ensures LiveScores(p, AttemptKey(c, rep, 0)).Some?
    decreases last - first
  {
    hide LiveScores, RetryBatch;
    if first < rep {
      QuietFirsts(p, c, first + 1, last, rep);
    }
  }

  /** Where nothing raises, each sample holds the verdicts of all evaluators. */
  lemma SampleHoldsVerdict(p: Plan, k: nat, c: CaseId, rep: nat)
    requires Repeatable(p) && k < |p.metrics| && c in p.cases && rep < p.repeats
    ensures HasVerdict(p, p.metrics[k], c, rep)
    ensures var s := SampleOf(p, AttemptKey(c, rep, 0));
            s.status.Completed? && k < |s.scores| && s.scores[k] == VerdictScore(p, p.metrics[k], c, rep)
  {
    QuietFirsts(p, c, 0, p.repeats, rep);
    ScoresMean(p.metrics, p.live, c, p.agent(AttemptKey(c, rep, 0)).trace, false);
    hide ScoreAll, CaseBatch;
  }

  lemma RepeatableIsJudged(p: Plan, k: nat, c: CaseId)
    requires Repeatable(p) && k < |p.metrics| && c in p.cases
    ensures Judged(p, p.metrics[k], c)
  {
    forall rep: nat | rep < p.repeats ensures HasVerdict(p, p.metrics[k], c, rep) {
      SampleHoldsVerdict(p, k, c, rep);
    }
  }

  lemma LandSample(samples: seq<Sample>, s: Sample, k: nat)
    requires s.status.Completed? && k < |s.scores|
    ensures Column(LandedOf(samples + [s]), k) == Column(LandedOf(samples), k) + [s.scores[k]]
  {
    assert (samples + [s])[..|samples|] == samples;
    assert (LandedOf(samples) + [s.scores])[..|LandedOf(samples)|] == LandedOf(samples);
  }

  lemma {:induction false} CaseColumn(p: Plan, k: nat, c: CaseId, n: nat)
    requires Repeatable(p) && k < |p.metrics| && c in p.cases && n <= p.repeats
    requires Judged(p, p.metrics[k], c)
    ensures Column(LandedOf(Samples(p, c, 0, n)), k) == CaseScores(p, p.metrics[k], c, n)
  {
    hide Repeatable, SampleOf, Column, LandedOf, VerdictScore;
    if n == 0 {
      assert Samples(p, c, 0, 0) == [];
      NothingLands(k);
    } else {
      CaseColumn(p, k, c, n - 1);
      SampleHoldsVerdict(p, k, c, n - 1);
      assert Samples(p, c, 0, n) == Samples(p, c, 0, n - 1) + [SampleOf(p, AttemptKey(c, n - 1, 0))];
      LandSample(Samples(p, c, 0, n - 1), SampleOf(p, AttemptKey(c, n - 1, 0)), k);
    }
  }

  lemma NothingLands(k: nat)
    ensures Column(LandedOf([]), k) == []
  {
  }

  lemma {:induction false} ColumnIsAllScores(p: Plan, k: nat, n: nat)
    requires Repeatable(p) && k < |p.metrics| && n <= |p.cases|
    requires forall c | c in p.cases :: Judged(p, p.metrics[k], c)
    ensures Column(AllLanded(p, 0, n), k) == AllScores(p, p.metrics[k], n)
  {
    hide Repeatable, Judged, Samples, LandedOf;
    if n > 0 {
      ColumnIsAllScores(p, k, n - 1);
      CaseColumn(p, k, p.cases[n - 1], p.repeats);
      ColumnConcat(AllLanded(p, 0, n - 1), LandedOf(Samples(p, p.cases[n - 1], 0, p.repeats)), k);
      hide Column;
    }
  }

  lemma {:induction false} AllScoresAre(p: Plan, m: Metric, n: nat)
    requires n <= |p.cases| && forall c | c in p.cases :: Judged(p, m, c)
    ensures |AllScores(p, m, n)| == n * p.repeats
    ensures forall s | s in AllScores(p, m, n) :: s.metric == m.id && !s.onRetryOverride
  {
    hide Judged;
    if n > 0 {
      AllScoresAre(p, m, n - 1);
      assert (n - 1) * p.repeats + p.repeats == n * p.repeats;
    }
  }

  lemma {:induction false} FirstsCount(scores: seq<CaseScore>)
    requires forall s | s in scores :: !s.onRetryOverride
    ensures |Retained(scores)| == |scores|
  {
    if scores != [] {
      FirstsCount(scores[..|scores| - 1]);
    }
  }

  /** A row of the metric that counts every verdict once, and is therefore complete. */
  ghost predicate CountsAll(p: Plan, m: Metric, row: MetricRow)
    requires forall c | c in p.cases :: Judged(p, m, c)
  {
    && row.aggregate.Some?
    && row.aggregate == AggregateMetric(m, AllScores(p, m, |p.cases|), |p.cases| * p.repeats, false)
    && row.aggregate.value.n == |p.cases| * p.repeats
    && row.aggregate.value.state == AggregationState.Complete
  }

  lemma LandedCountsAll(p: Plan, k: nat)
    requires Repeatable(p) && k < |p.metrics| && forall c | c in p.cases :: Judged(p, p.metrics[k], c)
    ensures CountsAll(p, p.metrics[k], MetricRowFor(p, k, AllLanded(p, 0, |p.cases|), false, true))
  {
    ColumnIsAllScores(p, k, |p.cases|);
    AllScoresAre(p, p.metrics[k], |p.cases|);
    FirstsCount(AllScores(p, p.metrics[k], |p.cases|));
    hide Repeatable, Judged, Column, AllScores, Retained, AllLanded, Denominator;
  }

  lemma IdealRow(p: Plan, k: nat)
    requires Repeatable(p) && k < |p.metrics|
    ensures var id := p.metrics[k].id;
            id in Ideal(p).metrics && Ideal(p).metrics[id] == MetricRowFor(p, k, AllLanded(p, 0, |p.cases|), false, true)
  {
    RowsWritten(p, map[], AllLanded(p, 0, |p.cases|), false, true, |p.metrics|, k);
    hide WriteMetrics, MetricRowFor, AllLanded, AllRows, FinishedRow;
  }

  lemma AfterIsIdeal(p: Plan, cancels: seq<nat -> bool>, never: nat -> bool)
    requires Repeatable(p) && Undisturbed(never)
    ensures DbInv(p, Fresh(p)) && After(p, Fresh(p), cancels + [never]) == Ideal(p)
  {
    FreshIsPaused(p);
    ResumesToIdeal(p, Fresh(p), 0, cancels + [never]);
  }

  /**
   However often a run is cancelled at case boundaries and resumed, once a session runs undisturbed
   every metric's row aggregates the evaluator's verdict on every repeat of every case, each counted
   once: their number is cases times repeats, so the row is complete. Its gate is that of its value.
  */
  lemma EveryScoreCounts(p: Plan, cancels: seq<nat -> bool>, never: nat -> bool, k: nat)
    requires Repeatable(p) && Undisturbed(never) && k < |p.metrics|
    ensures DbInv(p, Fresh(p)) && forall c | c in p.cases :: Judged(p, p.metrics[k], c)
    ensures var m, rows := p.metrics[k], After(p, Fresh(p), cancels + [never]).metrics;
            m.id in rows && CountsAll(p, m, rows[m.id]) && rows[m.id].gate == Some(GateOf(m, rows[m.id].aggregate.value.value))
  {
    forall c | c in p.cases ensures Judged(p, p.metrics[k], c) {
      RepeatableIsJudged(p, k, c);
    }
    AfterIsIdeal(p, cancels, never);
    IdealRow(p, k);
    LandedCountsAll(p, k);
    hide Repeatable, Judged, After, Fresh, Ideal, DbInv, AllLanded, AllScores, AggregateMetric, Column, GateOf;
  }
}
