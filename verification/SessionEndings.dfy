/** When a session completes, when a cancellation lands in cancelled, and which cases a resume re-runs. */
module SessionEndings {
  import opened Wrappers
  import opened Lifecycle
  import opened Sessions
  import opened SessionClosure

  /** No attempt within the retry limit breaks the engine or makes an evaluator raise, and no re-scoring raises. */
  ghost predicate NeverRaises(p: Plan) {
    && (forall key: AttemptKey | key.attempt <= p.retryMax :: LiveScores(p, key).Some?)
    && (forall c: CaseId, trace: Trace :: ScoreAll(p.metrics, p.rescore, c, trace, false).Some?)
  }

  /** The signal, polled before each case, asks the session to stop before one of them. */
  ghost predicate AsksToCancel(p: Plan, cancel: nat -> bool) { exists j | 0 <= j < |p.cases| :: cancel(j) }

  /** The agent reports no first attempt as cancelled. */
  ghost predicate AgentNeverCancels(p: Plan) {
    forall key: AttemptKey | key.attempt == 0 :: !FinalRow(p, key).status.Cancelled?
  }

  lemma {:induction false} RetriesNeverRaise(p: Plan, c: CaseId, rep: nat, a: nat)
    requires NeverRaises(p)
    ensures !RetryBatch(p, c, rep, a).raised
    decreases p.retryMax + 1 - a
  {
    if a <= p.retryMax {
      assert LiveScores(p, AttemptKey(c, rep, a)).Some?;
      RetriesNeverRaise(p, c, rep, a + 1);
    }
  }

  lemma {:induction false} CaseNeverRaises(p: Plan, c: CaseId, first: nat, last: nat)
    requires NeverRaises(p)
    ensures !CaseBatch(p, c, first, last).raised
    decreases last - first
  {
    if first < last {
      assert LiveScores(p, AttemptKey(c, first, 0)).Some?;
      RetriesNeverRaise(p, c, first, 1);
      CaseNeverRaises(p, c, first + 1, last);
    }
  }

  lemma {:induction false} RescoreCaseNeverRaises(p: Plan, attempts: seq<AttemptRow>, c: CaseId)
    requires NeverRaises(p)
    ensures RescoreCase(p, attempts, c).Some?
  {
    if attempts != [] {
      RescoreCaseNeverRaises(p, attempts[..|attempts| - 1], c);
      assert ScoreAll(p.metrics, p.rescore, c, attempts[|attempts| - 1].trace, false).Some?;
    }
  }

  lemma {:induction false} RescoreNeverRaises(p: Plan, attempts: seq<AttemptRow>, executed: set<CaseId>, i: nat)
    requires NeverRaises(p) && i <= |p.cases|
    ensures RescoreRest(p, attempts, executed, i).Some?
  {
    if i > 0 {
      RescoreNeverRaises(p, attempts, executed, i - 1);
      RescoreCaseNeverRaises(p, attempts, p.cases[i - 1]);
    }
  }

  lemma SamplesNeverCancel(p: Plan, c: CaseId, first: nat, last: nat)
    requires AgentNeverCancels(p) && first <= last
    ensures !SomeCancelled(Samples(p, c, first, last))
  {
    var samples := Samples(p, c, first, last);
    forall i | 0 <= i < |samples| ensures !samples[i].status.Cancelled? {
      assert samples[i] == SampleOf(p, AttemptKey(c, first + i, 0));
      assert !FinalRow(p, AttemptKey(c, first + i, 0)).status.Cancelled?;
    }
  }

  lemma RunCaseNeverRaises(p: Plan, d: Db, c: CaseId)
    requires NeverRaises(p) && c in d.cases
    ensures var r := RunCase(p, d, c);
            && !r.raised && r.db.run == d.run && r.db.cases.Keys == d.cases.Keys
            && (AgentNeverCancels(p) ==> !SomeCancelled(r.samples))
  {
    hide NeverRaises, AgentNeverCancels, CaseBatch, SomeCancelled, CaseAfter;
    var first := NextRepeat(d.attempts, c);
    CaseNeverRaises(p, c, first, first + p.repeats);
    if AgentNeverCancels(p) {
      SamplesNeverCancel(p, c, first, first + p.repeats);
    }
  }

  /** A loop that nothing asks to stop reaches the end. */
  lemma {:induction false} LoopNeverRaises(p: Plan, d: Db, i: nat, executed: set<CaseId>, landed: Landed, cancel: nat -> bool)
    requires NeverRaises(p) && i <= |p.cases| && forall c | c in p.cases :: c in d.cases
    ensures var l := Loop(p, d, i, executed, landed, cancel);
            && !l.how.Raised? && l.db.run == d.run
            && (!AsksToCancel(p, cancel) && AgentNeverCancels(p) ==> l.how.Finished?)
    decreases |p.cases| - i
  {
    hide NeverRaises, AgentNeverCancels, RunCase, SomeCancelled, WriteMetrics, LandedOf;
    if i < |p.cases| && !cancel(i) {
      var c := p.cases[i];
      if CaseClosed(d.cases[c].status) {
        LoopNeverRaises(p, d, i + 1, executed, landed, cancel);
      } else {
        var r := RunCase(p, d, c);
        RunCaseNeverRaises(p, d, c);
        if !SomeCancelled(r.samples) {
          var landed' := landed + LandedOf(r.samples);
          LoopNeverRaises(p, Streamed(p, r.db, landed', true, false), i + 1, executed + {c}, landed', cancel);
        }
      }
    }
  }

  /** A loop asked to stop before some case it has not passed never reaches the end. */
  lemma {:induction false} LoopStops(p: Plan, d: Db, i: nat, executed: set<CaseId>, landed: Landed, cancel: nat -> bool, j: nat)
    requires i <= j < |p.cases| && cancel(j) && forall c | c in p.cases :: c in d.cases
    ensures !Loop(p, d, i, executed, landed, cancel).how.Finished?
    decreases |p.cases| - i
  {
    hide RunCase, SomeCancelled, WriteMetrics, LandedOf;
    if !cancel(i) {
      var c := p.cases[i];
      if CaseClosed(d.cases[c].status) {
        LoopStops(p, d, i + 1, executed, landed, cancel, j);
      } else {
        var r := RunCase(p, d, c);
        if !r.raised && !SomeCancelled(r.samples) {
          var landed' := landed + LandedOf(r.samples);
          RunCaseKeepsCases(p, d, c);
          LoopStops(p, Streamed(p, r.db, landed', true, false), i + 1, executed + {c}, landed', cancel, j);
        }
      }
    }
  }

  lemma FinalizeCompletes(p: Plan, l: LoopEnd)
    requires NeverRaises(p)
    ensures Finalize(p, l).ending.WasCompleted?
  {
    hide NeverRaises, WriteMetrics, RescoreRest;
    RescoreNeverRaises(p, l.db.attempts, l.executed, |p.cases|);
  }

  lemma RunCaseKeepsCases(p: Plan, d: Db, c: CaseId)
    requires c in d.cases
    ensures RunCase(p, d, c).db.cases.Keys == d.cases.Keys
  {
    hide CaseBatch, CaseAfter, NextRepeat, Samples;
  }

  lemma QuietLoopEnds(p: Plan, d: Db, cancel: nat -> bool)
    requires NeverRaises(p) && forall c | c in p.cases :: c in d.cases
    ensures var l := Loop(p, d, 0, {}, [], cancel);
            && !l.how.Raised? && l.db.run == d.run
            && (AsksToCancel(p, cancel) ==> l.how.Stopped?)
            && (!AsksToCancel(p, cancel) && AgentNeverCancels(p) ==> l.how.Finished?)
  {
    hide NeverRaises, AgentNeverCancels, Loop;
    LoopNeverRaises(p, d, 0, {}, [], cancel);
    if AsksToCancel(p, cancel) {
      var j :| 0 <= j < |p.cases| && cancel(j);
      LoopStops(p, d, 0, {}, [], cancel, j);
    }
  }

  /**
   When nothing raises, where a session lands depends on the signal and the stored run status alone,
   whichever case the signal comes before: asked to cancel, it never completes, and it lands in
   cancelled exactly if the run was not being resumed while aggregating; not asked, it completes,
   unless the agent reports an attempt as cancelled. Only a run resumed while aggregating ends with
   an error.
  */
  lemma QuietSessionsLand(p: Plan, d: Db, cancel: nat -> bool)
    requires DbInv(p, d) && NeverRaises(p) && !d.run.Complete? && !d.run.Failed?
    ensures var s := RunSession(p, d, cancel);
            && (AsksToCancel(p, cancel) ==> !s.ending.WasCompleted? && (s.ending.WasCancelled? <==> !d.run.Aggregating?))
            && (!AsksToCancel(p, cancel) && AgentNeverCancels(p) ==> s.ending.WasCompleted?)
            && (s.ending.HadError? ==> d.run.Aggregating?)
  {
    hide RunSession, Start, NeverRaises, AgentNeverCancels, AsksToCancel, Loop, DbInv, Settled, Finalize, Cancel;
    SessionIs(p, d, cancel);
    StartSettles(p, d);
    QuietLoopEnds(p, Start(d), cancel);
    var l := Loop(p, Start(d), 0, {}, [], cancel);
    SessionLands(p, l);
    FinalizeCompletes(p, l);
  }

  /**
   A completed run still holds a cancelled case exactly when the session began with that case
   cancelled and the run neither cancelled nor incomplete: only then is it not re-run.
  */
  lemma CancelledCasesSurviveExactly(p: Plan, d: Db, cancel: nat -> bool, c: CaseId)
    requires DbInv(p, d) && c in d.cases
    ensures var s := RunSession(p, d, cancel);
            s.ending.WasCompleted? ==>
              c in s.db.cases && (s.db.cases[c].status.Cancelled? <==> d.cases[c].status.Cancelled? && !Resumed(d.run))
  {
    hide Loop, DbInv, Settled, RunSession, Finalize, Cancel;
    SessionIs(p, d, cancel);
    StartSettles(p, d);
    LoopKeeps(p, Start(d), 0, {}, [], cancel);
    SessionLands(p, Loop(p, Start(d), 0, {}, [], cancel));
    assert c in Start(d).cases && Start(d).cases[c] == Restart(d.run, d.cases[c]);
  }

  /**
   A crash between the two writes that requeue an interrupted case costs that case: with the
   case still running the next session re-runs it, with the case already cancelled it does not.
  */
  lemma RequeueCrashLosesTheCase(p: Plan, d: Db, cancel: nat -> bool, c: CaseId)
    requires DbInv(p, d) && d.run.Running? && c in d.cases && d.cases[c].status.Running?
    ensures var crashed := d.(cases := d.cases[c := d.cases[c].(status := CaseState.Cancelled)]);
            && DbInv(p, crashed)
            && (RunSession(p, d, cancel).ending.WasCompleted? ==>
                  c in RunSession(p, d, cancel).db.cases && !RunSession(p, d, cancel).db.cases[c].status.Cancelled?)
            && (RunSession(p, crashed, cancel).ending.WasCompleted? ==>
                  c in RunSession(p, crashed, cancel).db.cases && RunSession(p, crashed, cancel).db.cases[c].status.Cancelled?)
  {
    hide RunSession, KeysDistinct, RetriesFollow;
    var crashed := d.(cases := d.cases[c := d.cases[c].(status := CaseState.Cancelled)]);
    CancelledCasesSurviveExactly(p, d, cancel, c);
    CancelledCasesSurviveExactly(p, crashed, cancel, c);
  }
}
