/** What re-scoring adds when a first attempt did not complete: the sample count tells the two apart. */
module SessionRescoring {
  import opened Wrappers
  import opened Lifecycle
  import opened Scoring
  import opened Aggregation
  import opened Sessions
  import opened SessionClosure
  import opened SessionEndings
  import opened SessionResume

  /** One first-attempt score per metric. */
  ghost predicate FullVector(p: Plan, v: seq<CaseScore>) {
    |v| == |p.metrics| && forall i | 0 <= i < |v| :: v[i].metric == p.metrics[i].id && !v[i].onRetryOverride
  }

  ghost predicate AllFull(p: Plan, landed: Landed) { forall v | v in landed :: FullVector(p, v) }

  /** A first attempt lands one full vector if it completed and nothing otherwise. */
  lemma SampleLands(p: Plan, c: CaseId, rep: nat)
    requires LiveScores(p, AttemptKey(c, rep, 0)).Some?
    ensures var s := SampleOf(p, AttemptKey(c, rep, 0));
            AllFull(p, LandedOf([s])) && |LandedOf([s])| == if s.status.Completed? then 1 else 0
  {
    var key := AttemptKey(c, rep, 0);
    var s := SampleOf(p, key);
    assert [s][..|[s]| - 1] == [];
    assert LandedOf([s]) == if s.status.Completed? then [s.scores] else [];
    if p.agent(key).Done? {
      ScoreAllMatches(p.metrics, p.live, c, p.agent(key).trace, false);
    }
  }

  ghost predicate RescoresTotally(p: Plan) {
    forall c: CaseId, trace: Trace :: ScoreAll(p.metrics, p.rescore, c, trace, false).Some?
  }

  /** Re-scoring lands one full vector for every stored first attempt, completed or not. */
  lemma FirstRescores(p: Plan, c: CaseId, rep: nat)
    requires RescoresTotally(p)
    ensures var r := RescoreCase(p, RepeatBatch(p, c, rep).rows, c); r.Some? && |r.value| == 1 && AllFull(p, r.value)
  {
    var row := FinalRow(p, AttemptKey(c, rep, 0));
    assert ScoreAll(p.metrics, p.rescore, c, row.trace, false).Some?;
    ScoreAllMatches(p.metrics, p.rescore, c, row.trace, false);
    RescoreOne(p, row);
    RescoreRepeat(p, c, rep);
  }

  predicate AllCompleted(samples: seq<Sample>) { forall s | s in samples :: s.status.Completed? }

  /** How the two ways of scoring an executed case compare in number. */
  ghost predicate Compared(p: Plan, samples: seq<Sample>, live: Landed, stored: Landed) {
    && AllFull(p, live) && AllFull(p, stored)
    && |stored| == |samples| && |live| <= |stored| && (|live| == |stored| <==> AllCompleted(samples))
  }

  lemma ComparedFollows(p: Plan, s: Sample, samples: seq<Sample>, l0: Landed, live: Landed, r0: Landed, stored: Landed)
    requires AllFull(p, l0) && |l0| == (if s.status.Completed? then 1 else 0) && AllFull(p, r0) && |r0| == 1
    requires Compared(p, samples, live, stored)
    ensures Compared(p, [s] + samples, l0 + live, r0 + stored)
  {
    hide FullVector;
    assert AllCompleted([s] + samples) <==> s.status.Completed? && AllCompleted(samples) by {
      assert ([s] + samples)[0] == s;
      assert forall t | t in samples :: t in [s] + samples;
    }
  }

  lemma {:induction false} CompareCase(p: Plan, c: CaseId, first: nat, last: nat)
    requires first <= last && RescoresTotally(p) && !CaseBatch(p, c, first, last).raised
    ensures var stored := RescoreCase(p, CaseBatch(p, c, first, last).rows, c);
            stored.Some? && Compared(p, Samples(p, c, first, last), LandedOf(Samples(p, c, first, last)), stored.value)
    decreases last - first
  {
    if first < last {
      var key := AttemptKey(c, first, 0);
      assert LiveScores(p, key).Some?;
      SampleLands(p, c, first);
      FirstRescores(p, c, first);
      CompareCase(p, c, first + 1, last);
      hide RescoreCase, RepeatBatch, LandedOf, SampleOf, LiveScores, FinalRow, Samples, Compared, AllFull, RescoresTotally;
      var b, rest := RepeatBatch(p, c, first).rows, CaseBatch(p, c, first + 1, last).rows;
      RescoreConcat(p, b, rest, c);
      SamplesSplit(p, c, first, last);
      LandedConcat([SampleOf(p, key)], Samples(p, c, first + 1, last));
      ComparedFollows(p, SampleOf(p, key), Samples(p, c, first + 1, last),
                      LandedOf([SampleOf(p, key)]), LandedOf(Samples(p, c, first + 1, last)),
                      RescoreCase(p, b, c).value, RescoreCase(p, rest, c).value);
    } else {
      assert Samples(p, c, first, last) == [];
    }
  }

  lemma {:induction false} ColumnIsRetained(p: Plan, landed: Landed, i: nat)
    requires AllFull(p, landed) && i < |p.metrics|
    ensures Retained(Column(landed, i)) == Column(landed, i) && |Column(landed, i)| == |landed|
    ensures forall s | s in Column(landed, i) :: s.metric == p.metrics[i].id
  {
    if landed != [] {
      var front, v := landed[..|landed| - 1], landed[|landed| - 1];
      assert v in landed && forall w | w in front :: w in landed;
      ColumnIsRetained(p, front, i);
      var column := Column(front, i);
      assert Column(landed, i) == column + [v[i]];
      assert (column + [v[i]])[..|column|] == column;
    }
  }

  /**
   The aggregated sample count of an executed case is the same live and re-scored exactly when
   all its first attempts completed; otherwise re-scoring counts more.
  */
  lemma RescoringCountsExactly(p: Plan, c: CaseId, first: nat, last: nat, i: nat)
    requires first <= last && RescoresTotally(p) && !CaseBatch(p, c, first, last).raised && i < |p.metrics|
    ensures RescoreCase(p, CaseBatch(p, c, first, last).rows, c).Some?
    ensures var samples := Samples(p, c, first, last);
            var stored := RescoreCase(p, CaseBatch(p, c, first, last).rows, c).value;
            var x := AggregateMetric(p.metrics[i], Column(LandedOf(samples), i), Expected(p), false);
            var y := AggregateMetric(p.metrics[i], Column(stored, i), Expected(p), false);
            && x.Some? && y.Some? && x.value.n <= y.value.n == last - first
            && (x.value.n == y.value.n <==> AllCompleted(samples))
  {
    CompareCase(p, c, first, last);
    var live, stored := LandedOf(Samples(p, c, first, last)), RescoreCase(p, CaseBatch(p, c, first, last).rows, c).value;
    ColumnIsRetained(p, live, i);
    ColumnIsRetained(p, stored, i);
    hide Column, Retained, CaseBatch, RescoreCase, LandedOf;
  }
}
