/**
 The engine driving a run. Every write goes through a setter that checks the transition, the
 trail records each committed write, and a session is proved to leave exactly the tables that
 Sessions.RunSession says, so the lemmas about sessions and about crash states speak of this class.
*/
module Engine {
  import opened Wrappers
  import opened Lifecycle
  import opened Scoring
  import opened Aggregation
  import opened Sessions
  import opened SessionClosure
  import opened EngineWrites

  function Having(cases: map<CaseId, CaseRow>, state: CaseState): set<CaseId> {
    set c | c in cases && cases[c].status == state
  }

  function Moved(cases: map<CaseId, CaseRow>, todo: set<CaseId>, target: CaseState): map<CaseId, CaseRow> {
    map c | c in cases :: if c in todo then cases[c].(status := target) else cases[c]
  }

  function WithCancelledBack(d: Db): map<CaseId, CaseRow> {
    if Resumed(d.run) then Moved(d.cases, Having(d.cases, CaseState.Cancelled), CaseState.Queued) else d.cases
  }

  /** The cases requeued after reconciliation. */
  function Requeued(run: RunState, reconciled: map<CaseId, CaseRow>, interrupted: set<CaseId>): set<CaseId> {
    interrupted + (if Resumed(run) || run.Running? || run.Aggregating? then Having(reconciled, CaseState.Failed) else {})
  }

  /** Picking a run up step by step comes to the same tables as Start. */
  lemma StartIs(d: Db)
    ensures var back := WithCancelledBack(d);
            var interrupted := Having(back, CaseState.Running);
            var reconciled := Moved(back, interrupted, CaseState.Cancelled);
            Start(d) == Db(if d.run.Aggregating? then d.run else RunState.Running,
                           Moved(reconciled, Requeued(d.run, reconciled, interrupted), CaseState.Queued),
                           OrphanAll(d.attempts), d.metrics)
  {
    hide OrphanAll;
    var back := WithCancelledBack(d);
    var interrupted := Having(back, CaseState.Running);
    var reconciled := Moved(back, interrupted, CaseState.Cancelled);
    assert Start(d).cases == Moved(reconciled, Requeued(d.run, reconciled, interrupted), CaseState.Queued);
  }

  class Engine {
    const plan: Plan
    ghost const origin: Db
    var db: Db
    ghost var trail: seq<Write>

    ghost predicate Valid()
      reads this
    {
      DbInv(plan, origin) && Legal(plan, origin, trail) && db == Exec(origin, trail)
    }

    constructor (plan: Plan, db: Db)
      requires DbInv(plan, db)
      ensures Valid() && this.plan == plan && this.db == db && trail == []
    {
      this.plan, this.db, this.origin, this.trail := plan, db, db, [];
    }

    lemma Invariant()
      requires Valid()
      ensures DbInv(plan, db)
    {
      CrashStatesKeepInv(plan, origin, trail, |trail|);
      assert trail[..|trail|] == trail;
    }

    /** Commits one write. */
    method Commit(w: Write)
      requires Valid() && Allowed(plan, db, w)
      modifies `db, `trail
      ensures Valid() && db == Put(old(db), w) && trail == old(trail) + [w]
    {
      hide Put, Allowed, DbInv;
      db := Put(db, w);
      trail := trail + [w];
      assert trail[..|trail| - 1] == old(trail);
    }

    // ---- Setters ------------------------------------------------------------------------------

    method SetRunStatus(target: RunState) returns (ok: bool)
      requires Valid()
      modifies `db, `trail
      ensures Valid() && old(trail) <= trail
      ensures ok == RunLegal(old(db).run, target)
      ensures db == if ok then old(db).(run := target) else old(db)
    {
      hide Legal, Exec, DbInv;
      ok := Transition(db.run, target, RunTargets).Success?;
      if ok {
        Commit(SetRun(target));
      }
    }

    method SetCaseStatus(c: CaseId, target: CaseState) returns (ok: bool)
      requires Valid() && c in db.cases
      modifies `db, `trail
      ensures Valid() && old(trail) <= trail
      ensures ok == CaseLegal(old(db).cases[c].status, target)
      ensures db == if ok then old(db).(cases := old(db).cases[c := old(db).cases[c].(status := target)]) else old(db)
    {
      hide Legal, Exec, DbInv;
      ok := Transition(db.cases[c].status, target, CaseTargets).Success?;
      if ok {
        Commit(SetCase(c, target));
      }
    }

    method SetAttemptStatus(i: nat, target: AttemptState) returns (ok: bool)
      requires Valid() && i < |db.attempts|
      modifies `db, `trail
      ensures Valid() && old(trail) <= trail
      ensures ok == AttemptLegal(old(db).attempts[i].status, target)
      ensures db == if ok then old(db).(attempts := old(db).attempts[i := old(db).attempts[i].(status := target)]) else old(db)
    {
      hide Legal, Exec, DbInv;
      ok := Transition(db.attempts[i].status, target, AttemptTargets).Success?;
      if ok {
        Commit(SetAttempt(i, target));
      }
    }

    /** Inserting an attempt fails exactly when its key is taken. */
    method CreateAttempt(key: AttemptKey) returns (ok: bool)
      requires Valid() && key.caseId in db.cases && (key.attempt > 0 ==> HasKey(db.attempts, Before(key)))
      modifies `db, `trail
      ensures Valid() && old(trail) <= trail
      ensures ok == !HasKey(old(db).attempts, key)
      ensures db == if ok then old(db).(attempts := old(db).attempts + [AttemptRow(key, AttemptState.Queued, NO_EVENTS)]) else old(db)
    {
      hide Legal, Exec, DbInv;
      ok := forall i | 0 <= i < |db.attempts| :: db.attempts[i].key != key;
      if ok {
        Commit(Create(key));
      }
    }

    // ---- Attempts -----------------------------------------------------------------------------

    /** Scores a trace on every metric; the first evaluator that raises ends it. */
    method ScoreTrace(scorer: Scorer, c: CaseId, trace: Trace, retry: bool) returns (scores: Option<seq<CaseScore>>)
      ensures scores == ScoreAll(plan.metrics, scorer, c, trace, retry)
    {
      var done: seq<CaseScore> := [];
      for i := 0 to |plan.metrics|
        invariant ScoreAll(plan.metrics[..i], scorer, c, trace, retry) == Some(done)
      {
        var m := plan.metrics[i];
        assert plan.metrics[..i + 1][..i] == plan.metrics[..i];
        var v := scorer(m, c, trace);
        if v.None? {
          ScoreAllRaises(plan.metrics, i + 1, scorer, c, trace, retry);
          return None;
        }
        done := done + [CaseScore(m.id, c, v.value.score, v.value.passed, v.value.status, retry)];
      }
      assert plan.metrics[..|plan.metrics|] == plan.metrics;
      scores := Some(done);
    }

    /** One invocation of the agent: the attempt row it leaves, and its scores unless the session must stop. */
    method RunAttempt(key: AttemptKey) returns (scores: Option<seq<CaseScore>>)
      requires Valid() && key.caseId in db.cases && !HasKey(db.attempts, key)
      requires key.attempt > 0 ==> HasKey(db.attempts, Before(key))
      modifies `db, `trail
      ensures Valid() && old(trail) <= trail
      ensures db == old(db).(attempts := old(db).attempts + [FinalRow(plan, key)])
      ensures scores == LiveScores(plan, key)
    {
      hide DbInv, Legal, Exec, HasKey, ScoreAll;
      var i := |db.attempts|;
      var ok := CreateAttempt(key);
      assert ok;
      ok := SetAttemptStatus(i, AttemptState.Running);
      assert ok;
      match plan.agent(key)
      case Crashed =>
        ok := SetAttemptStatus(i, AttemptState.Errored);
        assert ok;
        scores := None;
      case Ended(how, kept) =>
        Commit(Ingest(i, kept));
        ok := SetAttemptStatus(i, match how
                                  case EndTimedOut => AttemptState.TimedOut
                                  case EndCancelled => AttemptState.Cancelled
                                  case EndErrored => AttemptState.Errored);
        assert ok;
        scores := Some([]);
      case Done(trace) =>
        Commit(Ingest(i, trace));
        ok := SetAttemptStatus(i, AttemptState.Completed);
        assert ok;
        scores := ScoreTrace(plan.live, key.caseId, trace, key.attempt > 0);
    }

    /** One repeat: its first attempt, and retries only after a completed first attempt with a failing score. */
    method RunRepeat(c: CaseId, rep: nat) returns (sample: Sample, raised: bool)
      requires Valid() && c in db.cases && AllBelow(db.attempts, c, rep)
      modifies `db, `trail
      ensures Valid() && old(trail) <= trail
      ensures db == old(db).(attempts := old(db).attempts + RepeatBatch(plan, c, rep).rows)
      ensures raised == RepeatBatch(plan, c, rep).raised
      ensures !raised ==> sample == SampleOf(plan, AttemptKey(c, rep, 0))
    {
      hide DbInv, Legal, Exec, HasKey, AllBelow, FinalRow, LiveScores;
      ghost var d := db;
      FreshKey(d.attempts, [], c, rep, 0);
      assert d.attempts + [] == d.attempts;
      var scores := RunAttempt(AttemptKey(c, rep, 0));
      var row := db.attempts[|db.attempts| - 1];
      if scores.None? {
        return Sample(row.status, []), true;
      }
      sample, raised := Sample(row.status, scores.value), false;
      if row.status.Completed? && scores.value != [] && SomeFail(scores.value) && plan.retryMax > 0 {
        ghost var rows := [row];
        FirstIsNumbered(plan, c, rep);
        hide Numbered;
        var a := 1;
        while a <= plan.retryMax
          invariant Valid() && old(trail) <= trail && db == d.(attempts := d.attempts + rows)
          invariant 1 <= a <= plan.retryMax + 1 && |rows| == a && Numbered(rows, c, rep, 0)
          invariant RepeatBatch(plan, c, rep) == Follow(Batch(rows, false), RetryBatch(plan, c, rep, a))
        {
          FreshKey(d.attempts, rows, c, rep, a);
          var retry := RunAttempt(AttemptKey(c, rep, a));
          var last := db.attempts[|db.attempts| - 1];
          RetryTurn(plan, c, rep, a, rows);
          rows := rows + [last];
          assert db.attempts == d.attempts + rows;
          if retry.None? {
            raised := true;
            return;
          }
          if last.status.Completed? && retry.value != [] && AllPass(retry.value) {
            return;
          }
          a := a + 1;
        }
        assert rows + [] == rows;
      }
    }

    /** Classifies a case by counting over its samples; retries play no part. */
    method ClassifyCase(samples: seq<Sample>) returns (classification: Option<Classification>, category: Option<Category>)
      ensures classification == Classify(samples) && category == CategoryOf(samples)
    {
      var passes, fails := 0, 0;
      var errors: seq<Category> := [];
      for i := 0 to |samples|
        invariant 0 <= passes && 0 <= fails
        invariant passes > 0 <==> Passes(samples[..i])
        invariant fails > 0 <==> Fails(samples[..i])
        invariant forall category :: category in errors <==> Shows(samples[..i], category)
      {
        var s := samples[i];
        assert samples[..i + 1] == samples[..i] + [s];
        Snoc(samples[..i], s);
        hide Passes, Fails, Shows;
        if !s.status.Completed? {
          errors := errors + [if s.status.TimedOut? || s.status.Orphaned? || s.status.BudgetExceeded? then Infra else Agent];
        } else if s.scores == [] {
          errors := errors + [Agent];
        } else if SomeError(s.scores) {
          errors := errors + [Evaluator];
        } else if SomeFail(s.scores) {
          fails := fails + 1;
        } else if AllPass(s.scores) {
          passes := passes + 1;
        }
      }
      assert samples[..|samples|] == samples;
      hide Passes, Fails, Shows;
      category := if Infra in errors then Some(Infra)
                  else if Agent in errors then Some(Agent)
                  else if Evaluator in errors then Some(Evaluator)
                  else None;
      classification := if passes + fails == 0 then (if errors == [] then None else Some(AllErrored))
                        else if fails == 0 then Some(Passing)
                        else if passes == 0 then Some(Failing)
                        else Some(Flaky);
      assert errors != [] ==> errors[0] in errors;
    }

    /** The repeats of one case, numbered from first on; an exception ends them. */
    method RunRepeats(c: CaseId, first: nat) returns (raised: bool, samples: seq<Sample>)
      requires Valid() && c in db.cases && AllBelow(db.attempts, c, first)
      modifies `db, `trail
      ensures Valid() && old(trail) <= trail
      ensures var b := CaseBatch(plan, c, first, first + plan.repeats);
              db == old(db).(attempts := old(db).attempts + b.rows) && raised == b.raised
      ensures !raised ==> samples == Samples(plan, c, first, first + plan.repeats)
    {
      hide DbInv, Legal, Exec, RepeatBatch, SampleOf, AllBelow, CaseBatch, Samples;
      ghost var d, last, rows := db, first + plan.repeats, [];
      samples, raised := [], false;
      RepeatsEdges(plan, c, first, last, d.attempts);
      for i := 0 to plan.repeats
        invariant Valid() && old(trail) <= trail
        invariant db == d.(attempts := d.attempts + rows)
        invariant CaseBatch(plan, c, first, last) == Follow(Batch(rows, false), CaseBatch(plan, c, first + i, last))
        invariant AllBelow(db.attempts, c, first + i)
        invariant samples == Samples(plan, c, first, first + i)
      {
        RepeatTurn(plan, c, first + i, last, rows, db.attempts);
        SamplesTurn(plan, c, first, first + i);
        var sample, stop := RunRepeat(c, first + i);
        rows := rows + RepeatBatch(plan, c, first + i).rows;
        assert db.attempts == d.attempts + rows;
        if stop {
          raised := true;
          return;
        }
        samples := samples + [sample];
      }
      assert rows + [] == rows;
    }

    /** The classification and final status of a running case. */
    method FinishCase(c: CaseId, samples: seq<Sample>)
      requires Valid() && c in db.cases && db.cases[c].status.Running?
      modifies `db, `trail
      ensures Valid() && old(trail) <= trail
      ensures db == old(db).(cases := old(db).cases[c := CaseAfter(old(db).cases[c], samples)])
    {
      hide DbInv, Legal, Exec, Classify, CategoryOf;
      if exists s | s in samples :: s.status.Cancelled? {
        var ok := SetCaseStatus(c, CaseState.Cancelled);
        assert ok;
        return;
      }
      var classification, category := ClassifyCase(samples);
      Commit(SetVerdict(c, classification, category));
      var ok := SetCaseStatus(c, if exists s | s in samples :: s.status.Completed? then CaseState.Completed else CaseState.Failed);
      assert ok;
    }

    /** One case through its repeats and retries, then its classification and final status. */
    method RunCaseInner(c: CaseId) returns (raised: bool, samples: seq<Sample>)
      requires Valid() && c in db.cases && db.cases[c].status.Queued?
      modifies `db, `trail
      ensures Valid() && old(trail) <= trail
      ensures db == RunCase(plan, old(db), c).db && raised == RunCase(plan, old(db), c).raised
      ensures !raised ==> samples == RunCase(plan, old(db), c).samples
    {
      hide DbInv, Legal, Exec, CaseBatch, Samples;
      var ok := SetCaseStatus(c, CaseState.Running);
      assert ok;
      var first := NextRepeat(db.attempts, c);
      hide NextRepeat;
      raised, samples := RunRepeats(c, first);
      if !raised {
        FinishCase(c, samples);
      }
    }

    /** Upserts the row of every metric from what has landed. */
    method WriteMetricRows(landed: Landed, inProgress: bool, final: bool)
      requires Valid()
      modifies `db, `trail
      ensures Valid() && old(trail) <= trail
      ensures db == Streamed(plan, old(db), landed, inProgress, final)
    {
      hide DbInv, Legal, Exec, AggregateMetric, GateOf, Column;
      ghost var d := db;
      for i := 0 to |plan.metrics|
        invariant Valid() && old(trail) <= trail
        invariant db == d.(metrics := WriteMetrics(plan, d.metrics, landed, inProgress, final, i))
      {
        var metric := plan.metrics[i];
        assert metric in plan.metrics;
        var aggregate := AggregateMetric(metric, Column(landed, i), |plan.cases| * plan.repeats, inProgress);
        var gate: Option<GateStatus> := None;
        if final {
          gate := Some(GateOf(metric, if aggregate.Some? then aggregate.value.value else None));
        }
        Commit(SetMetric(metric.id, MetricRow(aggregate, gate)));
      }
    }

    // ---- Picking up a run -----------------------------------------------------------------------

    /** Attempts left open by a dead runner are orphaned. */
    method OrphanStale()
      requires Valid()
      modifies `db, `trail
      ensures Valid() && old(trail) <= trail
      ensures db == old(db).(attempts := OrphanAll(old(db).attempts))
    {
      hide DbInv, Legal, Exec;
      ghost var d := db;
      for i := 0 to |db.attempts|
        invariant Valid() && old(trail) <= trail
        invariant db == d.(attempts := db.attempts) && |db.attempts| == |d.attempts|
        invariant forall k | 0 <= k < |d.attempts| :: db.attempts[k] == if k < i then Orphan(d.attempts[k]) else d.attempts[k]
      {
        if !AttemptClosed(db.attempts[i].status) {
          var ok := SetAttemptStatus(i, AttemptState.Orphaned);
          assert ok;
        }
      }
      assert db.attempts == OrphanAll(d.attempts);
    }

    /** Moves the given cases to one status, in no particular order. */
    method MoveCases(todo: set<CaseId>, target: CaseState)
      requires Valid() && forall c | c in todo :: c in db.cases && CaseLegal(db.cases[c].status, target)
      modifies `db, `trail
      ensures Valid() && old(trail) <= trail
      ensures db == old(db).(cases := Moved(old(db).cases, todo, target))
    {
      hide DbInv, Legal, Exec, CaseLegal;
      ghost var d := db;
      var left := todo;
      while left != {}
        invariant Valid() && old(trail) <= trail && left <= todo
        invariant db == d.(cases := db.cases) && db.cases.Keys == d.cases.Keys
        invariant forall c | c in d.cases :: db.cases[c] == if c in todo - left then d.cases[c].(status := target) else d.cases[c]
        decreases left
      {
        var c :| c in left;
        var ok := SetCaseStatus(c, target);
        assert ok;
        left := left - {c};
      }
      assert db.cases == Moved(d.cases, todo, target);
    }

    /** Brings the run to running, or leaves it aggregating; resuming a cancelled or incomplete run requeues its cancelled cases. */
    method BringUp() returns (status: RunState)
      requires Valid() && !db.run.Complete? && !db.run.Failed?
      modifies `db, `trail
      ensures Valid() && old(trail) <= trail
      ensures db == Db(if old(db).run.Aggregating? then old(db).run else RunState.Running,
                       WithCancelledBack(old(db)), old(db).attempts, old(db).metrics)
      ensures status == if Resumed(old(db).run) then RunState.Queued else old(db).run
    {
      hide DbInv, Legal, Exec, Moved;
      status := db.run;
      if status.Cancelled? || status.Incomplete? {
        var ok := SetRunStatus(RunState.Queued);
        assert ok;
        MoveCases(Having(db.cases, CaseState.Cancelled), CaseState.Queued);
        status := RunState.Queued;
      }
      if status.Draft? || status.Queued? || status.Provisioning? {
        AdvanceToRunning(status);
      }
    }

    /** Orphans stale attempts and cancels the cases a dead runner left running, naming them. */
    method ReconcileStale() returns (interrupted: set<CaseId>)
      requires Valid()
      modifies `db, `trail
      ensures Valid() && old(trail) <= trail
      ensures interrupted == Having(old(db).cases, CaseState.Running)
      ensures db == old(db).(attempts := OrphanAll(old(db).attempts), cases := Moved(old(db).cases, interrupted, CaseState.Cancelled))
    {
      hide DbInv, Legal, Exec, Moved, OrphanAll;
      OrphanStale();
      interrupted := Having(db.cases, CaseState.Running);
      MoveCases(interrupted, CaseState.Cancelled);
    }

    /** Picks a run up: the tables are then as the case loop expects them. */
    method Resume()
      requires Valid() && !db.run.Complete? && !db.run.Failed?
      modifies `db, `trail
      ensures Valid() && old(trail) <= trail
      ensures db == Start(old(db))
    {
      hide DbInv, Legal, Exec, OrphanAll, Start, WithCancelledBack;
      ghost var d := db;
      var was := db.run;
      var status := BringUp();
      var requeue := ReconcileStale();
      if status.Running? || status.Aggregating? || was.Cancelled? || was.Incomplete? {
        requeue := requeue + Having(db.cases, CaseState.Failed);
      }
      MoveCases(requeue, CaseState.Queued);
      StartIs(d);
    }

    method AdvanceToRunning(status: RunState)
      requires Valid() && db.run == status && (status.Draft? || status.Queued? || status.Provisioning?)
      modifies `db, `trail
      ensures Valid() && old(trail) <= trail
      ensures db == old(db).(run := RunState.Running)
    {
      hide DbInv, Legal, Exec;
      if status.Draft? {
        var ok := SetRunStatus(RunState.Queued);
        assert ok;
      }
      if status.Draft? || status.Queued? {
        var ok := SetRunStatus(RunState.Provisioning);
        assert ok;
      }
      var ok := SetRunStatus(RunState.Running);
      assert ok;
    }

    // ---- Ending a session -----------------------------------------------------------------------

    /** Confirms a cancellation: unfinished cases are cancelled and what landed is aggregated. */
    method CancelRun(ghost executed: set<CaseId>, landed: Landed) returns (ending: Ending)
      requires Valid() && Settled(db) && (db.run.Running? || db.run.Aggregating?)
      modifies `db, `trail
      ensures Valid() && old(trail) <= trail
      ensures Session(ending, db) == Cancel(plan, LoopEnd(Stopped, old(db), executed, landed))
    {
      hide DbInv, Legal, Exec, Streamed;
      ghost var d := db;
      var open := set c | c in db.cases && !CaseClosed(db.cases[c].status);
      MoveCases(open, CaseState.Cancelled);
      ghost var closed := d.(cases := map c | c in d.cases :: CloseCase(d.cases[c]));
      assert db.cases == closed.cases;
      WriteMetricRows(landed, false, false);
      StreamedOnlyMetrics(plan, closed, landed, false, false);
      var ok := SetRunStatus(RunState.Cancelled);
      if ok {
        ending := WasCancelled;
      } else {
        ok := SetRunStatus(RunState.Incomplete);
        assert ok;
        ending := HadError;
      }
    }

    /** Re-scores the stored first attempts of a case. */
    method RescoreStored(c: CaseId) returns (landed: Option<Landed>)
      ensures landed == RescoreCase(plan, db.attempts, c)
    {
      var done: Landed := [];
      for i := 0 to |db.attempts|
        invariant RescoreCase(plan, db.attempts[..i], c) == Some(done)
      {
        var a := db.attempts[i];
        assert db.attempts[..i + 1][..i] == db.attempts[..i];
        hide ScoreAll;
        if a.key.caseId == c && a.key.attempt == 0 {
          var v := ScoreTrace(plan.rescore, c, a.trace, false);
          if v.None? {
            RescoreRaises(plan, db.attempts, i + 1, c);
            return None;
          }
          done := done + [v.value];
        }
      }
      assert db.attempts[..|db.attempts|] == db.attempts;
      landed := Some(done);
    }

    /** Aggregates everything, live and re-scored, evaluates the gates and completes the run. */
    method FinalizeRun(executed: set<CaseId>, landed: Landed) returns (ending: Ending)
      requires Valid() && (db.run.Running? || db.run.Aggregating?)
      modifies `db, `trail
      ensures Valid() && old(trail) <= trail
      ensures Session(ending, db) == Finalize(plan, LoopEnd(Finished, old(db), executed, landed))
    {
      hide DbInv, Legal, Exec, Streamed, RescoreCase;
      ghost var d := db;
      var more: Landed := [];
      for i := 0 to |plan.cases|
        invariant Valid() && trail == old(trail) && db == d
        invariant RescoreRest(plan, d.attempts, executed, i) == Some(more)
      {
        if plan.cases[i] !in executed {
          var scores := RescoreStored(plan.cases[i]);
          if scores.None? {
            RescoreRestRaises(plan, d.attempts, executed, i + 1, |plan.cases|);
            var ok := SetRunStatus(RunState.Incomplete);
            assert ok;
            return HadError;
          }
          more := more + scores.value;
        }
      }
      hide RescoreRest;
      if db.run.Running? {
        var ok := SetRunStatus(RunState.Aggregating);
        assert ok;
      }
      WriteMetricRows(landed + more, false, true);
      StreamedOnlyMetrics(plan, d, landed + more, false, true);
      StreamedOnlyMetrics(plan, d.(run := RunState.Aggregating), landed + more, false, true);
      var ok := SetRunStatus(RunState.Complete);
      assert ok;
      ending := WasCompleted;
    }

    /** Executes one case of the loop and streams the metric rows; an exception leaves the run incomplete. */
    method ExecuteCase(c: CaseId, landed: Landed) returns (raised: bool, stop: bool, grown: Landed)
      requires Valid() && DbInv(plan, db) && Settled(db) && (db.run.Running? || db.run.Aggregating?)
      requires c in plan.cases && c in db.cases && !CaseClosed(db.cases[c].status)
      modifies `db, `trail
      ensures Valid() && old(trail) <= trail
      ensures var r := RunCase(plan, old(db), c);
              && raised == r.raised
              && (raised ==> db == r.db.(run := RunState.Incomplete))
              && (!raised ==> grown == landed + LandedOf(r.samples) && db == Streamed(plan, r.db, grown, true, false)
                              && stop == SomeCancelled(r.samples))
      ensures !raised ==> DbInv(plan, db) && Settled(db) && db.run == old(db).run
    {
      hide Legal, Exec, DbInv, Settled, RunCase, Streamed, LandedOf;
      ghost var r := RunCase(plan, db, c);
      RunCaseSettles(plan, db, c);
      RunCaseKeepsInv(plan, db, c);
      NotRunningIsQueued(db, c);
      var samples;
      raised, samples := RunCaseInner(c);
      grown, stop := landed, false;
      if raised {
        var ok := SetRunStatus(RunState.Incomplete);
        assert ok;
        return;
      }
      grown := landed + LandedOf(samples);
      WriteMetricRows(grown, true, false);
      StreamedKeeps(plan, r.db, grown, true, false);
      SettledTransfers(r.db, db);
      stop := exists s | s in samples :: s.status.Cancelled?;
    }

    /**
     One session, end to end: it refuses finished runs, and otherwise executes, cancels or
     completes the run; cancel is what polling answers before each case.
    */
    method Run(cancel: nat -> bool) returns (ending: Ending)
      requires Valid()
      modifies `db, `trail
      ensures Valid() && old(trail) <= trail
      ensures DbInv(plan, old(db)) && Session(ending, db) == RunSession(plan, old(db), cancel)
    {
      hide Legal, Exec, Start, Loop, Cancel, Finalize, DbInv, Settled, RunCase, Streamed, LandedOf, SomeCancelled;
      Invariant();
      SessionIs(plan, db, cancel);
      hide RunSession;
      if db.run.Complete? || db.run.Failed? {
        return WasRefused;
      }
      StartSettles(plan, db);
      Resume();
      ghost var start := db;
      CasesPresent(plan, db);
      var executed: set<CaseId>, landed: Landed := {}, [];
      for i := 0 to |plan.cases|
        invariant Valid() && old(trail) <= trail
        invariant DbInv(plan, db) && Settled(db) && (db.run.Running? || db.run.Aggregating?)
        invariant forall c | c in plan.cases :: c in db.cases
        invariant Loop(plan, start, 0, {}, [], cancel) == Loop(plan, db, i, executed, landed, cancel)
      {
        var c := plan.cases[i];
        assert c in plan.cases;
        LoopUnfolds(plan, db, i, executed, landed, cancel);
        if cancel(i) {
          ending := CancelRun(executed, landed);
          return;
        }
        if CaseClosed(db.cases[c].status) {
          continue;
        }
        var raised, stop, grown := ExecuteCase(c, landed);
        if raised {
          return HadError;
        }
        executed, landed := executed + {c}, grown;
        if stop {
          ending := CancelRun(executed, landed);
          return;
        }
      }
      LoopUnfolds(plan, db, |plan.cases|, executed, landed, cancel);
      ending := FinalizeRun(executed, landed);
    }
  }

  lemma {:induction false} ScoreAllRaises(metrics: seq<Metric>, i: nat, scorer: Scorer, c: CaseId, trace: Trace, retry: bool)
    requires i <= |metrics| && ScoreAll(metrics[..i], scorer, c, trace, retry).None?
    ensures ScoreAll(metrics, scorer, c, trace, retry).None?
    decreases |metrics|
  {
    if i < |metrics| {
      var front := metrics[..|metrics| - 1];
      assert metrics[..i] == front[..i];
      ScoreAllRaises(front, i, scorer, c, trace, retry);
    } else {
      assert metrics[..i] == metrics;
    }
  }

  /** Every attempt of the case belongs to a repeat below rep. */
  ghost predicate AllBelow(rows: seq<AttemptRow>, c: CaseId, rep: nat) {
    forall r | r in rows && r.key.caseId == c :: r.key.rep < rep
  }

  /** The next attempt number of the current repeat is free, and the one before it is taken. */
  lemma FreshKey(stored: seq<AttemptRow>, rows: seq<AttemptRow>, c: CaseId, rep: nat, a: nat)
    requires AllBelow(stored, c, rep) && Numbered(rows, c, rep, 0) && |rows| == a
    ensures !HasKey(stored + rows, AttemptKey(c, rep, a))
    ensures a > 0 ==> HasKey(stored + rows, AttemptKey(c, rep, a - 1))
  {
    var all := stored + rows;
    forall i | 0 <= i < |all| ensures all[i].key != AttemptKey(c, rep, a) {
      if i < |stored| {
        assert all[i] in stored;
      } else {
        assert all[i] == rows[i - |stored|];
      }
    }
    if a > 0 {
      assert all[|stored| + a - 1] == rows[a - 1];
    }
  }

  lemma FirstIsNumbered(p: Plan, c: CaseId, rep: nat)
    ensures Numbered([FinalRow(p, AttemptKey(c, rep, 0))], c, rep, 0)
  {
    RepeatIsNumbered(p, c, rep);
    assert RepeatBatch(p, c, rep).rows[0] == FinalRow(p, AttemptKey(c, rep, 0));
  }

  /** One retry of the loop, against the rows still to come. */
  lemma RetryTurn(p: Plan, c: CaseId, rep: nat, a: nat, rows: seq<AttemptRow>)
    requires a <= p.retryMax && Numbered(rows, c, rep, 0) && |rows| == a
    ensures var key := AttemptKey(c, rep, a);
            var row, scores := FinalRow(p, key), LiveScores(p, key);
            var whole := Follow(Batch(rows, false), RetryBatch(p, c, rep, a));
            && Numbered(rows + [row], c, rep, 0)
            && (scores.None? ==> whole == Batch(rows + [row], true))
            && (scores.Some? ==>
                  if row.status.Completed? && scores.value != [] && AllPass(scores.value) then whole == Batch(rows + [row], false)
                  else whole == Follow(Batch(rows + [row], false), RetryBatch(p, c, rep, a + 1)))
  {
    var row := FinalRow(p, AttemptKey(c, rep, a));
    RetriesAreNumbered(p, c, rep, a);
    assert RetryBatch(p, c, rep, a).rows[0] == row;
    var rest := RetryBatch(p, c, rep, a + 1).rows;
    assert rows + ([row] + rest) == rows + [row] + rest;
  }

  lemma Snoc(samples: seq<Sample>, s: Sample)
    ensures Passes(samples + [s]) <==> Passes(samples) || PassSample(s)
    ensures Fails(samples + [s]) <==> Fails(samples) || FailSample(s)
    ensures forall category :: Shows(samples + [s], category) <==> Shows(samples, category) || ErrorOf(s) == Some(category)
  {
    hide PassSample, FailSample, ErrorOf;
    assert forall t :: t in samples + [s] <==> t in samples || t == s;
  }

  /** One repeat of the loop, against the repeats still to come. */
  lemma RepeatTurn(p: Plan, c: CaseId, rep: nat, last: nat, rows: seq<AttemptRow>, attempts: seq<AttemptRow>)
    requires rep < last && AllBelow(attempts, c, rep)
    ensures var b := RepeatBatch(p, c, rep);
            var whole := Follow(Batch(rows, false), CaseBatch(p, c, rep, last));
            && AllBelow(attempts + b.rows, c, rep + 1)
            && (if b.raised then whole == Batch(rows + b.rows, true)
                else whole == Follow(Batch(rows + b.rows, false), CaseBatch(p, c, rep + 1, last)))
  {
    var b := RepeatBatch(p, c, rep);
    RepeatIsNumbered(p, c, rep);
    hide RepeatBatch;
    assert rows + (b.rows + CaseBatch(p, c, rep + 1, last).rows) == rows + b.rows + CaseBatch(p, c, rep + 1, last).rows;
  }

  lemma RepeatsEdges(p: Plan, c: CaseId, first: nat, last: nat, attempts: seq<AttemptRow>)
    requires first <= last
    ensures CaseBatch(p, c, first, last) == Follow(Batch([], false), CaseBatch(p, c, first, last))
    ensures CaseBatch(p, c, last, last) == Batch([], false) && Samples(p, c, first, first) == [] && attempts + [] == attempts
  {
    hide RepeatBatch, SampleOf;
  }

  lemma SamplesTurn(p: Plan, c: CaseId, first: nat, i: nat)
    requires first <= i
    ensures Samples(p, c, first, i + 1) == Samples(p, c, first, i) + [SampleOf(p, AttemptKey(c, i, 0))]
  {
    hide SampleOf;
  }

  /** Writing metric rows touches nothing else and depends on nothing else. */
  lemma StreamedOnlyMetrics(p: Plan, d: Db, landed: Landed, inProgress: bool, final: bool)
    ensures Streamed(p, d, landed, inProgress, final) ==
              Db(d.run, d.cases, d.attempts, WriteMetrics(p, d.metrics, landed, inProgress, final, |p.metrics|))
  {
    hide WriteMetrics;
  }

  lemma {:induction false} RescoreRaises(p: Plan, attempts: seq<AttemptRow>, i: nat, c: CaseId)
    requires i <= |attempts| && RescoreCase(p, attempts[..i], c).None?
    ensures RescoreCase(p, attempts, c).None?
    decreases |attempts|
  {
    if i < |attempts| {
      hide ScoreAll;
      var front := attempts[..|attempts| - 1];
      assert attempts[..i] == front[..i];
      RescoreRaises(p, front, i, c);
    } else {
      assert attempts[..i] == attempts;
    }
  }

  lemma {:induction false} RescoreRestRaises(p: Plan, attempts: seq<AttemptRow>, executed: set<CaseId>, i: nat, n: nat)
    requires i <= n <= |p.cases| && RescoreRest(p, attempts, executed, i).None?
    ensures RescoreRest(p, attempts, executed, n).None?
    decreases n
  {
    if i < n {
      hide RescoreCase;
      RescoreRestRaises(p, attempts, executed, i, n - 1);
    }
  }

  lemma CasesPresent(p: Plan, d: Db)
    requires DbInv(p, d)
    ensures forall c | c in p.cases :: c in d.cases
  {
  }

  lemma NotRunningIsQueued(d: Db, c: CaseId)
    requires Settled(d) && c in d.cases && !CaseClosed(d.cases[c].status)
    ensures d.cases[c].status.Queued?
  {
  }

  /** One turn of the loop as a case distinction. */
  lemma LoopUnfolds(p: Plan, d: Db, i: nat, executed: set<CaseId>, landed: Landed, cancel: nat -> bool)
    requires i <= |p.cases| && forall c | c in p.cases :: c in d.cases
    ensures var l := Loop(p, d, i, executed, landed, cancel);
            if i == |p.cases| then l == LoopEnd(Finished, d, executed, landed)
            else if cancel(i) then l == LoopEnd(Stopped, d, executed, landed)
            else if CaseClosed(d.cases[p.cases[i]].status) then l == Loop(p, d, i + 1, executed, landed, cancel)
            else
              var r := RunCase(p, d, p.cases[i]);
              if r.raised then l == LoopEnd(Raised, r.db, executed, landed)
              else
                var landed' := landed + LandedOf(r.samples);
                var e := Streamed(p, r.db, landed', true, false);
                && (forall c | c in p.cases :: c in e.cases)
                && (if SomeCancelled(r.samples) then l == LoopEnd(Stopped, e, executed + {p.cases[i]}, landed')
                    else l == Loop(p, e, i + 1, executed + {p.cases[i]}, landed', cancel))
  {
    hide CaseBatch, LandedOf, WriteMetrics, CaseAfter, Samples, NextRepeat, SomeCancelled;
  }
}
