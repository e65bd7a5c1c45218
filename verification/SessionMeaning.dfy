/** What the pieces of a session mean: which scores land, what a column holds, and how a case is classified. */
module SessionMeaning {
  import opened Wrappers
  import opened Lifecycle
  import opened Stats
  import opened Scoring
  import opened Aggregation
  import opened Sessions

  function IsCompleted(): Sample -> bool { (s: Sample) => s.status == AttemptState.Completed }
  function ScoresOf(): Sample -> seq<CaseScore> { (s: Sample) => s.scores }
  function Reaches(i: nat): seq<CaseScore> -> bool { (v: seq<CaseScore>) => i < |v| }

  // ---- One attempt -------------------------------------------------------------------------------

  /** The evaluator's verdict as a score of the metric. */
  ghost predicate IsVerdict(s: CaseScore, m: Metric, c: CaseId, retry: bool, v: Verdict) {
    s.metric == m.id && s.caseId == c && s.score == v.score && s.passed == v.passed && s.status == v.status
    && s.onRetryOverride == retry
  }

  /** Scoring fails exactly if an evaluator raises, and otherwise gives each metric's verdict in its place. */
  lemma {:induction false} ScoresMean(metrics: seq<Metric>, scorer: Scorer, c: CaseId, trace: Trace, retry: bool)
    ensures var r := ScoreAll(metrics, scorer, c, trace, retry);
            && (r.None? <==> exists m | m in metrics :: scorer(m, c, trace).None?)
            && (r.Some? ==>
                  && |r.value| == |metrics| && (forall m | m in metrics :: scorer(m, c, trace).Some?)
                  && forall i | 0 <= i < |metrics| :: IsVerdict(r.value[i], metrics[i], c, retry, scorer(metrics[i], c, trace).value))
  {
    if metrics != [] {
      var front, m := metrics[..|metrics| - 1], metrics[|metrics| - 1];
      ScoresMean(front, scorer, c, trace, retry);
      assert metrics == front + [m];
    }
  }

  /**
   What an attempt leaves: the status and the trace of what came of it, scores exactly if it was done,
   and the end of the session exactly on an engine error or where an evaluator raises.
  */
  lemma AttemptMeans(p: Plan, key: AttemptKey)
    ensures var row, how := FinalRow(p, key), p.agent(key);
            && row.key == key && row.trace == (if how.Crashed? then NO_EVENTS else if how.Ended? then how.kept else how.trace)
            && (row.status == AttemptState.Completed <==> how.Done?)
            && (row.status == AttemptState.TimedOut <==> how.Ended? && how.how == EndTimedOut)
            && (row.status == AttemptState.Cancelled <==> how.Ended? && how.how == EndCancelled)
            && (row.status == AttemptState.Errored <==> how.Crashed? || (how.Ended? && how.how == EndErrored))
    ensures var r, how := LiveScores(p, key), p.agent(key);
            && (r.None? <==> how.Crashed? || (how.Done? && exists m | m in p.metrics :: p.live(m, key.caseId, how.trace).None?))
            && (r.Some? ==> |r.value| == if how.Done? then |p.metrics| else 0)
  {
    if p.agent(key).Done? {
      ScoresMean(p.metrics, p.live, key.caseId, p.agent(key).trace, key.attempt > 0);
    }
    hide ScoreAll;
  }

  // ---- What lands --------------------------------------------------------------------------------

  /** The scores of the completed attempts land, in their order. */
  lemma {:induction false} LandedMeans(samples: seq<Sample>)
    ensures LandedOf(samples) == Map(ScoresOf(), Filter(IsCompleted(), samples))
  {
    if samples != [] {
      var front, s := samples[..|samples| - 1], samples[|samples| - 1];
      assert samples == front + [s];
      LandedMeans(front);
      FilterSnoc(IsCompleted(), front, s);
      hide Filter;
    }
  }

  /** The column of a metric holds its score of every vector that reaches it, in their order. */
  lemma {:induction false} ColumnMeans(landed: Landed, i: nat)
    ensures |Column(landed, i)| == |Filter(Reaches(i), landed)|
    ensures forall k | 0 <= k < |Column(landed, i)| ::
              i < |Filter(Reaches(i), landed)[k]| && Column(landed, i)[k] == Filter(Reaches(i), landed)[k][i]
  {
    if landed != [] {
      var front, v := landed[..|landed| - 1], landed[|landed| - 1];
      assert landed == front + [v];
      ColumnMeans(front, i);
      FilterSnoc(Reaches(i), front, v);
      hide Filter;
    }
  }

  /** A closed attempt or case is one that is neither queued nor running. */
  lemma ClosedMeans(a: AttemptState, c: CaseState)
    ensures AttemptClosed(a) <==> a !in {AttemptState.Queued, AttemptState.Running}
    ensures CaseClosed(c) <==> c !in {CaseState.Queued, CaseState.Running}
    ensures AttemptClosed(a) <==> AttemptTargets(a) == {}
  {
  }

  // ---- One case ----------------------------------------------------------------------------------

  /** A completed attempt that was scored, and only with passes. */
  ghost predicate Passed(s: Sample) {
    s.status == AttemptState.Completed && s.scores != [] && forall i | 0 <= i < |s.scores| :: s.scores[i].status == Pass
  }

  /** A completed attempt with a failure and no error among its scores. */
  ghost predicate Failed(s: Sample) {
    && s.status == AttemptState.Completed
    && (exists i | 0 <= i < |s.scores| :: s.scores[i].status == Fail)
    && (forall i | 0 <= i < |s.scores| :: s.scores[i].status != Error)
  }

  /** Who is to blame: the infrastructure for attempts cut off, the agent for attempts without scores, an evaluator for its error. */
  ghost predicate Blames(s: Sample, category: Category) {
    match category
    case Infra => s.status in {AttemptState.TimedOut, AttemptState.Orphaned, AttemptState.BudgetExceeded}
    case Agent =>
      s.status !in {AttemptState.TimedOut, AttemptState.Orphaned, AttemptState.BudgetExceeded}
      && (s.status != AttemptState.Completed || s.scores == [])
    case Evaluator =>
      s.status == AttemptState.Completed && exists i | 0 <= i < |s.scores| :: s.scores[i].status == Error
  }

  lemma SampleMeans(s: Sample)
    ensures PassSample(s) <==> Passed(s)
    ensures FailSample(s) <==> Failed(s)
    ensures forall category :: ErrorOf(s) == Some(category) <==> Blames(s, category)
  {
    assert AllPass(s.scores) <==> forall i | 0 <= i < |s.scores| :: s.scores[i].status == Pass;
    assert SomeFail(s.scores) <==> exists i | 0 <= i < |s.scores| :: s.scores[i].status == Fail;
    assert SomeError(s.scores) <==> exists i | 0 <= i < |s.scores| :: s.scores[i].status == Error;
  }

  lemma SamplesMean(samples: seq<Sample>)
    ensures Passes(samples) <==> exists s | s in samples :: Passed(s)
    ensures Fails(samples) <==> exists s | s in samples :: Failed(s)
    ensures forall category :: Shows(samples, category) <==> exists s | s in samples :: Blames(s, category)
  {
    forall s | s in samples
      ensures (PassSample(s) <==> Passed(s)) && (FailSample(s) <==> Failed(s))
      ensures forall category :: ErrorOf(s) == Some(category) <==> Blames(s, category)
    {
      SampleMeans(s);
    }
    hide PassSample, FailSample, ErrorOf, Passed, Failed, Blames;
  }

  /**
   Classifying by the first attempts: flaky with passes and failures, passing or failing with one kind,
   all errored with neither but an error, and otherwise nothing; the category is the most fundamental
   one to blame, infrastructure before agent before evaluator.
  */
  lemma ClassificationMeans(samples: seq<Sample>)
    ensures var pass, fail := exists s | s in samples :: Passed(s), exists s | s in samples :: Failed(s);
            && (Classify(samples) == Some(Flaky) <==> pass && fail)
            && (Classify(samples) == Some(Passing) <==> pass && !fail)
            && (Classify(samples) == Some(Failing) <==> !pass && fail)
            && (Classify(samples) == Some(AllErrored) <==>
                  !pass && !fail && exists s, category | s in samples :: Blames(s, category))
    ensures CategoryOf(samples) == Some(Infra) <==> exists s | s in samples :: Blames(s, Infra)
    ensures CategoryOf(samples) == Some(Agent) <==>
              (exists s | s in samples :: Blames(s, Agent)) && forall s | s in samples :: !Blames(s, Infra)
    ensures CategoryOf(samples) == Some(Evaluator) <==>
              (exists s | s in samples :: Blames(s, Evaluator)) && forall s | s in samples :: !Blames(s, Infra) && !Blames(s, Agent)
  {
    SamplesMean(samples);
    assert CategoryOf(samples).Some? <==> exists category :: Shows(samples, category);
    hide Passes, Fails, Shows, Passed, Failed, Blames;
  }

  /** A case is cancelled by a cancelled attempt, and keeps its verdict; else it is completed by any completed one, and failed by none. */
  lemma CaseMeans(row: CaseRow, samples: seq<Sample>)
    ensures var r, cancelled := CaseAfter(row, samples), exists s | s in samples :: s.status == AttemptState.Cancelled;
            && (r.status == CaseState.Cancelled <==> cancelled)
            && (r.status == CaseState.Completed <==> !cancelled && exists s | s in samples :: s.status == AttemptState.Completed)
            && (r.status == CaseState.Failed <==> !cancelled && forall s | s in samples :: s.status != AttemptState.Completed)
            && r.classification == (if cancelled then row.classification else Classify(samples))
            && r.category == (if cancelled then row.category else CategoryOf(samples))
  {
    hide Classify, CategoryOf;
  }
}
