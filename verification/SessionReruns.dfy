/** Which cases a session runs, how many retries they get, and what rows a finished session leaves. */
module SessionReruns {
  import opened Wrappers
  import opened Lifecycle
  import opened Scoring
  import opened Aggregation
  import opened Sessions
  import opened SessionClosure

  // ---- Retries -----------------------------------------------------------------------------------

  predicate Passed(p: Plan, key: AttemptKey) {
    var scores := LiveScores(p, key);
    FinalRow(p, key).status.Completed? && scores.Some? && scores.value != [] && AllPass(scores.value)
  }

  predicate FailedFirst(p: Plan, key: AttemptKey) {
    var scores := LiveScores(p, key);
    FinalRow(p, key).status.Completed? && scores.Some? && SomeFail(scores.value)
  }

  /** No attempt before the last passes everything; fewer than allowed means the last does. */
  ghost predicate StopAtPass(p: Plan, b: Batch, allowed: nat) {
    && |b.rows| <= allowed
    && (forall i | 0 <= i < |b.rows| - 1 :: !Passed(p, b.rows[i].key))
    && (!b.raised && 0 < |b.rows| < allowed ==> Passed(p, b.rows[|b.rows| - 1].key))
  }

  lemma StopsPrepend(p: Plan, row: AttemptRow, rest: Batch, allowed: nat)
    requires StopAtPass(p, rest, allowed) && !Passed(p, row.key) && (allowed > 0 ==> rest.rows != [])
    ensures StopAtPass(p, Prepend(row, rest), allowed + 1)
  {
    hide Passed;
    var rows := [row] + rest.rows;
    assert forall i | 1 <= i < |rows| :: rows[i] == rest.rows[i - 1];
  }

  lemma {:induction false} RetriesAreBounded(p: Plan, c: CaseId, rep: nat, a: nat)
    requires a <= p.retryMax + 1
    ensures var b := RetryBatch(p, c, rep, a);
            StopAtPass(p, b, p.retryMax + 1 - a) && (a <= p.retryMax ==> b.rows != [])
    decreases p.retryMax + 1 - a
  {
    if a <= p.retryMax {
      var key := AttemptKey(c, rep, a);
      RetriesAreBounded(p, c, rep, a + 1);
      assert FinalRow(p, key).key == key;
      if !Passed(p, key) {
        hide StopAtPass;
        StopsPrepend(p, FinalRow(p, key), RetryBatch(p, c, rep, a + 1), p.retryMax - a);
      }
    }
  }

  /**
   A repeat is retried exactly when its first attempt completed with a failing score and retries are
   allowed; retries stop at the first that passes everything, and otherwise use up the allowance.
  */
  lemma RetriesStopAtFirstPass(p: Plan, c: CaseId, rep: nat)
    requires LiveScores(p, AttemptKey(c, rep, 0)).Some?
    ensures var b := RepeatBatch(p, c, rep);
            && b.rows != []
            && (|b.rows| > 1 <==> FailedFirst(p, AttemptKey(c, rep, 0)) && p.retryMax > 0)
            && (|b.rows| > 1 ==> StopAtPass(p, Batch(b.rows[1..], b.raised), p.retryMax))
  {
    RetriesAreBounded(p, c, rep, 1);
    hide RetryBatch, FinalRow, LiveScores, StopAtPass, SomeFail;
    var b, rest := RepeatBatch(p, c, rep), RetryBatch(p, c, rep, 1);
    if FailedFirst(p, AttemptKey(c, rep, 0)) && p.retryMax > 0 {
      assert b.rows[1..] == rest.rows;
    }
  }

  // ---- Which cases run ---------------------------------------------------------------------------

  /** The case has attempts in e that it does not have in d. */
  ghost predicate Ran(d: Db, e: Db, c: CaseId) {
    exists i | |d.attempts| <= i < |e.attempts| :: e.attempts[i].key.caseId == c
  }

  ghost predicate Extends(d: Db, e: Db) { |d.attempts| <= |e.attempts| }

  lemma {:induction false} BatchIsNotEmpty(p: Plan, c: CaseId, first: nat, last: nat)
    requires first < last
    ensures CaseBatch(p, c, first, last).rows != []
  {
    RepeatIsNumbered(p, c, first);
    hide RepeatBatch;
  }

  /** Executing a case adds attempts of that case and of no other. */
  lemma RunCaseRuns(p: Plan, d: Db, c: CaseId)
    requires p.repeats >= 1 && c in d.cases
    ensures var e := RunCase(p, d, c).db;
            && Extends(d, e) && Ran(d, e, c)
            && forall i | |d.attempts| <= i < |e.attempts| :: e.attempts[i].key.caseId == c
  {
    hide CaseBatch, Samples, CaseAfter, NextRepeat;
    var first := NextRepeat(d.attempts, c);
    var rows := CaseBatch(p, c, first, first + p.repeats).rows;
    CaseBatchIsInOrder(p, c, first, first + p.repeats);
    BatchIsNotEmpty(p, c, first, first + p.repeats);
    var e := RunCase(p, d, c).db;
    assert e.attempts == d.attempts + rows;
    forall i | |d.attempts| <= i < |e.attempts| ensures e.attempts[i].key.caseId == c {
      assert e.attempts[i] == rows[i - |d.attempts|];
      assert rows[i - |d.attempts|] in rows;
    }
    assert e.attempts[|d.attempts|].key.caseId == c;
  }

  /** Attempts are only ever appended. */
  ghost predicate Appends(d: Db, e: Db) {
    Extends(d, e) && forall i | 0 <= i < |d.attempts| :: e.attempts[i].key == d.attempts[i].key
  }

  lemma RanCompose(d: Db, m: Db, e: Db, own: CaseId, c: CaseId)
    requires Appends(m, e) && Extends(d, m) && Ran(d, m, own)
    requires forall i | |d.attempts| <= i < |m.attempts| :: m.attempts[i].key.caseId == own
    ensures Ran(d, e, c) <==> c == own || Ran(m, e, c)
  {
    if c == own {
      var i :| |d.attempts| <= i < |m.attempts| && m.attempts[i].key.caseId == own;
      assert e.attempts[i].key.caseId == own;
    }
    if Ran(d, e, c) && c != own {
      var i :| |d.attempts| <= i < |e.attempts| && e.attempts[i].key.caseId == c;
      assert i >= |m.attempts|;
    }
  }

  lemma RunCaseAppends(p: Plan, d: Db, c: CaseId)
    requires c in d.cases
    ensures Appends(d, RunCase(p, d, c).db)
  {
    hide CaseBatch, Samples, CaseAfter, NextRepeat;
  }

  /** A loop that reaches the end has run exactly the cases that were open when it began. */
  ghost predicate RanOpenCases(d: Db, l: LoopEnd) {
    l.how.Finished? ==> Appends(d, l.db) && forall c | c in d.cases :: Ran(d, l.db, c) <==> !CaseClosed(d.cases[c].status)
  }

  ghost predicate EarlierClosed(p: Plan, d: Db, i: nat) {
    forall j | 0 <= j < i && j < |p.cases| && p.cases[j] in d.cases :: CaseClosed(d.cases[p.cases[j]].status)
  }

  lemma AllClosed(p: Plan, d: Db)
    requires DbInv(p, d) && EarlierClosed(p, d, |p.cases|)
    ensures forall c | c in d.cases :: CaseClosed(d.cases[c].status) && !Ran(d, d, c)
  {
    forall c | c in d.cases ensures CaseClosed(d.cases[c].status) {
      var j :| 0 <= j < |p.cases| && p.cases[j] == c;
    }
  }

  lemma RanStep(p: Plan, d: Db, r: Db, e: Db, i: nat, l: LoopEnd)
    requires i < |p.cases| && p.cases[i] in d.cases && !CaseClosed(d.cases[p.cases[i]].status)
    requires p.cases[i] in e.cases && e.cases == d.cases[p.cases[i] := e.cases[p.cases[i]]] && CaseClosed(e.cases[p.cases[i]].status)
    requires e.attempts == r.attempts && Appends(d, r) && Ran(d, r, p.cases[i])
    requires forall k | |d.attempts| <= k < |r.attempts| :: r.attempts[k].key.caseId == p.cases[i]
    requires RanOpenCases(e, l)
    ensures RanOpenCases(d, l)
  {
    if l.how.Finished? {
      forall c | c in d.cases ensures Ran(d, l.db, c) <==> !CaseClosed(d.cases[c].status) {
        RanCompose(d, e, l.db, p.cases[i], c);
      }
    }
  }

  lemma {:induction false} LoopRunsOpenCases(p: Plan, d: Db, i: nat, executed: set<CaseId>, landed: Landed, cancel: nat -> bool)
    requires p.repeats >= 1 && DbInv(p, d) && Settled(d) && i <= |p.cases| && EarlierClosed(p, d, i)
    requires forall c | c in p.cases :: c in d.cases
    ensures RanOpenCases(d, Loop(p, d, i, executed, landed, cancel))
    decreases |p.cases| - i
  {
    hide RunCase, Streamed, DbInv, SomeCancelled, LandedOf, Settled, RanOpenCases, Ran, Appends;
    if i == |p.cases| {
      NothingLeft(p, d, Loop(p, d, i, executed, landed, cancel));
    } else if cancel(i) {
      NotFinished(d, Loop(p, d, i, executed, landed, cancel));
    } else {
      var c := p.cases[i];
      if CaseClosed(d.cases[c].status) {
        LoopRunsOpenCases(p, d, i + 1, executed, landed, cancel);
      } else {
        var r := RunCase(p, d, c);
        var landed' := landed + LandedOf(r.samples);
        var e := Streamed(p, r.db, landed', true, false);
        var l := Loop(p, d, i, executed, landed, cancel);
        if r.raised || SomeCancelled(r.samples) {
          NotFinished(d, l);
        } else {
          RunCaseSettles(p, d, c);
          RunCaseKeepsInv(p, d, c);
          StreamedKeeps(p, r.db, landed', true, false);
          SettledTransfers(r.db, e);
          LoopRunsOpenCases(p, e, i + 1, executed + {c}, landed', cancel);
          RunCaseRuns(p, d, c);
          RunCaseAppends(p, d, c);
          RanStep(p, d, r.db, e, i, l);
        }
      }
    }
  }

  lemma NothingLeft(p: Plan, d: Db, l: LoopEnd)
    requires DbInv(p, d) && EarlierClosed(p, d, |p.cases|) && l.db == d
    ensures RanOpenCases(d, l)
  {
    AllClosed(p, d);
  }

  lemma NotFinished(d: Db, l: LoopEnd)
    requires !l.how.Finished?
    ensures RanOpenCases(d, l)
  {
  }

  /** A case still to be run, one a dead runner left running, and what an explicit resume re-runs. */
  predicate MustRun(run: RunState, s: CaseState) {
    || s.Queued? || s.Running?
    || (s.Cancelled? && (run.Cancelled? || run.Incomplete?))
    || (s.Failed? && (run.Cancelled? || run.Incomplete? || run.Running? || run.Aggregating?))
  }

  lemma RestartOpens(run: RunState, row: CaseRow)
    ensures !CaseClosed(Restart(run, row).status) <==> MustRun(run, row.status)
  {
  }

  /** A session that completes has run exactly these cases; completed and skipped cases never run again. */
  lemma SessionRunsExactly(p: Plan, d: Db, cancel: nat -> bool, c: CaseId)
    requires p.repeats >= 1 && DbInv(p, d) && c in d.cases
    ensures var s := RunSession(p, d, cancel);
            s.ending.WasCompleted? ==> (Ran(d, s.db, c) <==> MustRun(d.run, d.cases[c].status))
  {
    SessionIs(p, d, cancel);
    StartSettles(p, d);
    var start := Start(d);
    assert |start.attempts| == |d.attempts| && start.cases[c] == Restart(d.run, d.cases[c]);
    RestartOpens(d.run, d.cases[c]);
    hide Loop, Start, RunSession, Finalize, Cancel, DbInv, Settled, MustRun, Restart, CaseClosed, RunLegal;
    var l := Loop(p, start, 0, {}, [], cancel);
    assert EarlierClosed(p, start, 0);
    LoopRunsOpenCases(p, start, 0, {}, [], cancel);
    SessionLands(p, l);
    assert Ran(d, l.db, c) <==> Ran(start, l.db, c);
  }

  // ---- The rows a session leaves -----------------------------------------------------------------

  lemma {:induction false} RowsWritten(p: Plan, rows: map<string, MetricRow>, landed: Landed,
      inProgress: bool, final: bool, i: nat, k: nat)
    requires ValidPlan(p) && k < i <= |p.metrics|
    ensures var written := WriteMetrics(p, rows, landed, inProgress, final, i);
            p.metrics[k].id in written && written[p.metrics[k].id] == MetricRowFor(p, k, landed, inProgress, final)
  {
    hide MetricRowFor;
    if k < i - 1 {
      RowsWritten(p, rows, landed, inProgress, final, i - 1, k);
    }
  }

  /** Every score stands under the id of the metric whose column it is in. */
  ghost predicate Labelled(p: Plan, landed: Landed) {
    forall v: seq<CaseScore>, i | v in landed && 0 <= i < |v| && i < |p.metrics| :: v[i].metric == p.metrics[i].id
  }

  lemma {:induction false} ColumnIsLabelled(p: Plan, landed: Landed, i: nat)
    requires Labelled(p, landed) && i < |p.metrics|
    ensures forall s | s in Column(landed, i) :: s.metric == p.metrics[i].id
  {
    if landed != [] {
      var v := landed[|landed| - 1];
      assert v in landed && forall w | w in landed[..|landed| - 1] :: w in landed;
      ColumnIsLabelled(p, landed[..|landed| - 1], i);
    }
  }

  lemma SampleIsLabelled(p: Plan, key: AttemptKey)
    ensures Labelled(p, [SampleOf(p, key).scores])
  {
    if p.agent(key).Done? {
      ScoreAllMatches(p.metrics, p.live, key.caseId, p.agent(key).trace, key.attempt > 0);
    }
  }

  lemma {:induction false} LiveIsLabelled(p: Plan, samples: seq<Sample>)
    requires forall s | s in samples :: Labelled(p, [s.scores])
    ensures Labelled(p, LandedOf(samples))
  {
    if samples != [] {
      var s := samples[|samples| - 1];
      LiveIsLabelled(p, samples[..|samples| - 1]);
      assert s in samples && s.scores in [s.scores];
    }
  }

  lemma BothAreLabelled(p: Plan, a: Landed, b: Landed)
    requires Labelled(p, a) && Labelled(p, b)
    ensures Labelled(p, a + b)
  {
  }

  lemma CaseIsLabelled(p: Plan, d: Db, c: CaseId)
    requires c in d.cases
    ensures Labelled(p, LandedOf(RunCase(p, d, c).samples))
  {
    var first := NextRepeat(d.attempts, c);
    SamplesAreLabelled(p, c, first, first + p.repeats);
    hide CaseBatch, CaseAfter, NextRepeat, Samples, LandedOf, Labelled;
  }

  lemma SamplesAreLabelled(p: Plan, c: CaseId, first: nat, last: nat)
    requires first <= last
    ensures Labelled(p, LandedOf(Samples(p, c, first, last)))
  {
    var samples := Samples(p, c, first, last);
    hide SampleOf, Labelled, LandedOf;
    forall s | s in samples ensures Labelled(p, [s.scores]) {
      var i :| 0 <= i < |samples| && samples[i] == s;
      SampleIsLabelled(p, AttemptKey(c, first + i, 0));
    }
    LiveIsLabelled(p, samples);
  }

  lemma StepIsLabelled(p: Plan, d: Db, c: CaseId, landed: Landed)
    requires c in d.cases && Labelled(p, landed)
    ensures var r := RunCase(p, d, c);
            var landed' := landed + LandedOf(r.samples);
            Labelled(p, landed') && Streamed(p, r.db, landed', true, false).cases.Keys == d.cases.Keys
  {
    CaseIsLabelled(p, d, c);
    BothAreLabelled(p, landed, LandedOf(RunCase(p, d, c).samples));
    hide CaseBatch, CaseAfter, Samples, NextRepeat, LandedOf, WriteMetrics, Labelled;
  }

  lemma {:induction false} LoopIsLabelled(p: Plan, d: Db, i: nat, executed: set<CaseId>, landed: Landed,
      cancel: nat -> bool)
    requires i <= |p.cases| && (forall c | c in p.cases :: c in d.cases) && Labelled(p, landed)
    ensures Labelled(p, Loop(p, d, i, executed, landed, cancel).landed)
    decreases |p.cases| - i
  {
    hide RunCase, LandedOf, SomeCancelled, Streamed, Labelled;
    if i < |p.cases| && !cancel(i) {
      var c := p.cases[i];
      if CaseClosed(d.cases[c].status) {
        LoopIsLabelled(p, d, i + 1, executed, landed, cancel);
      } else {
        StepIsLabelled(p, d, c, landed);
        var r := RunCase(p, d, c);
        var landed' := landed + LandedOf(r.samples);
        if !r.raised && !SomeCancelled(r.samples) {
          LoopIsLabelled(p, Streamed(p, r.db, landed', true, false), i + 1, executed + {c}, landed', cancel);
        }
      }
    }
  }

  lemma {:induction false} StoredIsLabelled(p: Plan, attempts: seq<AttemptRow>, c: CaseId)
    ensures var stored := RescoreCase(p, attempts, c); stored.Some? ==> Labelled(p, stored.value)
  {
    if attempts != [] {
      StoredIsLabelled(p, attempts[..|attempts| - 1], c);
      ScoreAllMatches(p.metrics, p.rescore, c, attempts[|attempts| - 1].trace, false);
    }
  }

  lemma {:induction false} RestIsLabelled(p: Plan, attempts: seq<AttemptRow>, executed: set<CaseId>, i: nat)
    requires i <= |p.cases|
    ensures var more := RescoreRest(p, attempts, executed, i); more.Some? ==> Labelled(p, more.value)
  {
    if i > 0 {
      RestIsLabelled(p, attempts, executed, i - 1);
      StoredIsLabelled(p, attempts, p.cases[i - 1]);
      hide RescoreCase;
    }
  }

  /**
   Aggregated, no longer in progress, partial exactly if fewer scores have landed than there are repeats
   of all cases, and with a gate verdict exactly if the run was completed: the verdict on the very value
   in the row.
  */
  ghost predicate RowLanded(p: Plan, metric: Metric, row: MetricRow, gated: bool) {
    && row.aggregate.Some? && !row.aggregate.value.state.InProgress? && (row.gate.Some? <==> gated)
    && (row.aggregate.value.state.Partial? <==> row.aggregate.value.n < |p.cases| * p.repeats)
    && (gated ==>
          && (row.gate == Some(NotApplicable) <==> !metric.gateSafe)
          && (row.gate == Some(GatePass) <==> metric.gateSafe && MeetsGate(metric.gate, row.aggregate.value.value)))
  }

  lemma RowIsLanded(p: Plan, k: nat, landed: Landed, final: bool)
    requires k < |p.metrics| && Labelled(p, landed)
    ensures RowLanded(p, p.metrics[k], MetricRowFor(p, k, landed, false, final), final)
  {
    ColumnIsLabelled(p, landed, k);
    hide Column, Retained, Denominator;
  }

  /** A completed or cancelled session leaves every metric aggregated and no row in progress; on completion gates judge the stored values. */
  lemma NoRowStaysInProgress(p: Plan, d: Db, cancel: nat -> bool, k: nat)
    requires ValidPlan(p) && DbInv(p, d) && k < |p.metrics|
    ensures var s := RunSession(p, d, cancel);
            s.ending.WasCompleted? || s.ending.WasCancelled? ==>
              p.metrics[k].id in s.db.metrics && RowLanded(p, p.metrics[k], s.db.metrics[p.metrics[k].id], s.ending.WasCompleted?)
  {
    SessionIs(p, d, cancel);
    assert Labelled(p, []);
    hide RunSession, Loop, Start, MetricRowFor, WriteMetrics, RescoreRest, RowLanded, ValidPlan, Labelled;
    if !d.run.Complete? && !d.run.Failed? {
      var l := Loop(p, Start(d), 0, {}, [], cancel);
      LoopIsLabelled(p, Start(d), 0, {}, [], cancel);
      RestIsLabelled(p, l.db.attempts, l.executed, |p.cases|);
      RowsWritten(p, l.db.metrics, l.landed, false, false, |p.metrics|, k);
      RowIsLanded(p, k, l.landed, false);
      var more := RescoreRest(p, l.db.attempts, l.executed, |p.cases|);
      if more.Some? {
        BothAreLabelled(p, l.landed, more.value);
        RowsWritten(p, l.db.metrics, l.landed + more.value, false, true, |p.metrics|, k);
        RowIsLanded(p, k, l.landed + more.value, true);
      }
    }
  }
}
