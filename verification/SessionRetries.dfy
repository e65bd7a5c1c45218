/** Retry non-interference: retries, however many and whatever their outcome, change no verdict. */
module SessionRetries {
  import opened Wrappers
  import opened Lifecycle
  import opened Scoring
  import opened Aggregation
  import opened Sessions
  import opened SessionClosure
  import opened SessionReruns
  import opened SessionEndings

  /** Two executions that agree on every first attempt; retry limits and retry outcomes may differ. */
  ghost predicate Twins(p: Plan, q: Plan) {
    && p.cases == q.cases && p.repeats == q.repeats && p.metrics == q.metrics
    && p.live == q.live && p.rescore == q.rescore
    && forall key: AttemptKey | key.attempt == 0 :: p.agent(key) == q.agent(key)
  }

  /** The first attempts among the stored rows. */
  function Firsts(rows: seq<AttemptRow>): seq<AttemptRow> {
    if rows == [] then []
    else
      var front, r := Firsts(rows[..|rows| - 1]), rows[|rows| - 1];
      if r.key.attempt == 0 then front + [r] else front
  }

  /** Everything but the retry rows is the same. */
  ghost predicate Same(d: Db, e: Db) {
    d.run == e.run && d.cases == e.cases && d.metrics == e.metrics && Firsts(d.attempts) == Firsts(e.attempts)
  }

  lemma {:induction false} FirstsConcat(xs: seq<AttemptRow>, ys: seq<AttemptRow>)
    ensures Firsts(xs + ys) == Firsts(xs) + Firsts(ys)
  {
    if ys == [] {
      assert xs + ys == xs;
    } else {
      FirstsConcat(xs, ys[..|ys| - 1]);
      assert (xs + ys)[..|xs + ys| - 1] == xs + ys[..|ys| - 1];
    }
  }

  lemma {:induction false} FirstsOfRetries(rows: seq<AttemptRow>)
    requires forall r | r in rows :: r.key.attempt > 0
    ensures Firsts(rows) == []
  {
    if rows != [] {
      FirstsOfRetries(rows[..|rows| - 1]);
      assert rows[|rows| - 1] in rows;
    }
  }

  lemma {:induction false} FirstsAre(rows: seq<AttemptRow>)
    ensures forall r :: r in Firsts(rows) <==> r in rows && r.key.attempt == 0
  {
    if rows != [] {
      var front, last := rows[..|rows| - 1], rows[|rows| - 1];
      FirstsAre(front);
      assert rows == front + [last];
    }
  }

  lemma {:induction false} FirstsOrphaned(rows: seq<AttemptRow>)
    ensures Firsts(OrphanAll(rows)) == OrphanAll(Firsts(rows))
  {
    if rows != [] {
      var front, last := rows[..|rows| - 1], rows[|rows| - 1];
      FirstsOrphaned(front);
      assert OrphanAll(rows)[..|rows| - 1] == OrphanAll(front);
      if last.key.attempt == 0 {
        assert OrphanAll(Firsts(front) + [last]) == OrphanAll(Firsts(front)) + [Orphan(last)];
      }
    }
  }

  /** The first attempt of the i-th row's repeat is stored at or before it. */
  lemma {:induction false} FirstOfRepeat(rows: seq<AttemptRow>, i: nat) returns (k: nat)
    requires RetriesFollow(rows) && i < |rows|
    ensures k <= i && rows[k].key == rows[i].key.(attempt := 0)
    decreases i
  {
    k := i;
    if rows[i].key.attempt > 0 {
      var j :| 0 <= j < i && rows[j].key == Before(rows[i].key);
      k := FirstOfRepeat(rows, j);
    }
  }

  /** Numbering goes by first attempts alone. */
  lemma NextRepeatByFirsts(rows: seq<AttemptRow>, c: CaseId)
    requires RetriesFollow(rows)
    ensures NextRepeat(rows, c) == NextRepeat(Firsts(rows), c)
  {
    var n, m := NextRepeat(rows, c), NextRepeat(Firsts(rows), c);
    hide NextRepeat;
    FirstsAre(rows);
    if n > 0 {
      var a :| a in rows && a.key.caseId == c && a.key.rep == n - 1;
      var i :| 0 <= i < |rows| && rows[i] == a;
      var k := FirstOfRepeat(rows, i);
      assert rows[k] in Firsts(rows);
    }
  }

  lemma {:induction false} RescoreByFirsts(p: Plan, q: Plan, rows: seq<AttemptRow>, c: CaseId)
    requires Twins(p, q)
    ensures RescoreCase(p, rows, c) == RescoreCase(q, Firsts(rows), c)
  {
    if rows != [] {
      hide ScoreAll;
      var front, last := rows[..|rows| - 1], rows[|rows| - 1];
      RescoreByFirsts(p, q, front, c);
      if last.key.attempt == 0 {
        assert (Firsts(front) + [last])[..|Firsts(front)|] == Firsts(front);
      }
    }
  }

  lemma {:induction false} RescoreRestByFirsts(p: Plan, q: Plan, xs: seq<AttemptRow>,
      ys: seq<AttemptRow>, executed: set<CaseId>, i: nat)
    requires Twins(p, q) && Firsts(xs) == Firsts(ys) && i <= |p.cases|
    ensures RescoreRest(p, xs, executed, i) == RescoreRest(q, ys, executed, i)
  {
    if i > 0 {
      hide RescoreCase, Firsts;
      RescoreRestByFirsts(p, q, xs, ys, executed, i - 1);
      RescoreByFirsts(p, q, xs, p.cases[i - 1]);
      RescoreByFirsts(q, q, ys, p.cases[i - 1]);
    }
  }

  lemma RepeatFirsts(p: Plan, c: CaseId, rep: nat)
    ensures Firsts(RepeatBatch(p, c, rep).rows) == [FinalRow(p, AttemptKey(c, rep, 0))]
  {
    var rows, row := RepeatBatch(p, c, rep).rows, FinalRow(p, AttemptKey(c, rep, 0));
    RepeatIsNumbered(p, c, rep);
    assert rows[0] == row;
    assert rows == [row] + rows[1..];
    hide RepeatBatch, FinalRow;
    FirstsConcat([row], rows[1..]);
    forall r | r in rows[1..] ensures r.key.attempt > 0 {
      var i :| 1 <= i < |rows| && rows[i] == r;
    }
    FirstsOfRetries(rows[1..]);
    assert [row][..0] == [];
    assert Firsts([row]) == [row];
  }

  // ---- A retry that raises -----------------------------------------------------------------------

  function WithoutRetries(p: Plan): Plan { p.(retryMax := 0) }

  /** Attempt x raises, and no attempt from a up to it passes everything, which would have ended the retries. */
  ghost predicate ReachedAndRaises(p: Plan, c: CaseId, rep: nat, a: nat, x: nat) {
    LiveScores(p, AttemptKey(c, rep, x)).None? && forall b | a <= b < x :: !Passed(p, AttemptKey(c, rep, b))
  }

  ghost predicate SomeReachedRaises(p: Plan, c: CaseId, rep: nat, a: nat) {
    exists x | a <= x <= p.retryMax :: ReachedAndRaises(p, c, rep, a, x)
  }

  /** The first attempt calls for retries, and one that the engine comes to raises. */
  ghost predicate RetryRaises(p: Plan, c: CaseId, rep: nat) {
    FailedFirst(p, AttemptKey(c, rep, 0)) && SomeReachedRaises(p, c, rep, 1)
  }

  lemma ReachedStep(p: Plan, c: CaseId, rep: nat, a: nat)
    requires LiveScores(p, AttemptKey(c, rep, a)).Some?
    ensures SomeReachedRaises(p, c, rep, a) <==> !Passed(p, AttemptKey(c, rep, a)) && SomeReachedRaises(p, c, rep, a + 1)
  {
    hide Passed, LiveScores;
    if SomeReachedRaises(p, c, rep, a) {
      var x :| a <= x <= p.retryMax && ReachedAndRaises(p, c, rep, a, x);
      assert ReachedAndRaises(p, c, rep, a + 1, x);
    }
    if !Passed(p, AttemptKey(c, rep, a)) && SomeReachedRaises(p, c, rep, a + 1) {
      var x :| a + 1 <= x <= p.retryMax && ReachedAndRaises(p, c, rep, a + 1, x);
      assert ReachedAndRaises(p, c, rep, a, x);
    }
  }

  lemma {:induction false} RetryBatchRaises(p: Plan, c: CaseId, rep: nat, a: nat)
    ensures RetryBatch(p, c, rep, a).raised <==> SomeReachedRaises(p, c, rep, a)
    decreases p.retryMax + 1 - a
  {
    if a <= p.retryMax {
      RetryBatchRaises(p, c, rep, a + 1);
      if LiveScores(p, AttemptKey(c, rep, a)).None? {
        assert ReachedAndRaises(p, c, rep, a, a);
      } else {
        ReachedStep(p, c, rep, a);
        hide SomeReachedRaises;
      }
    }
  }

  /** With a first attempt that does not raise, a repeat raises exactly through a retry, and never without retries. */
  lemma RepeatRaisesExactly(p: Plan, c: CaseId, rep: nat)
    requires LiveScores(p, AttemptKey(c, rep, 0)).Some?
    ensures RepeatBatch(p, c, rep).raised <==> RetryRaises(p, c, rep)
    ensures !RepeatBatch(WithoutRetries(p), c, rep).raised
  {
    RetryBatchRaises(p, c, rep, 1);
    assert p.retryMax == 0 ==> !SomeReachedRaises(p, c, rep, 1);
    hide RetryBatch, SomeReachedRaises;
  }

  /** Attempts of other cases do not shift the numbering of this one. */
  lemma {:induction false} NextRepeatOfOthers(attempts: seq<AttemptRow>, rows: seq<AttemptRow>, c: CaseId)
    requires forall r | r in rows :: r.key.caseId != c
    ensures NextRepeat(attempts + rows, c) == NextRepeat(attempts, c)
  {
    if rows == [] {
      assert attempts + rows == attempts;
    } else {
      var front := rows[..|rows| - 1];
      assert rows[|rows| - 1] in rows;
      NextRepeatOfOthers(attempts, front, c);
      assert (attempts + rows)[..|attempts + rows| - 1] == attempts + front;
    }
  }

  lemma {:induction false} NextRepeatOrphaned(attempts: seq<AttemptRow>, c: CaseId)
    ensures NextRepeat(OrphanAll(attempts), c) == NextRepeat(attempts, c)
  {
    if attempts != [] {
      NextRepeatOrphaned(attempts[..|attempts| - 1], c);
      assert OrphanAll(attempts)[..|attempts| - 1] == OrphanAll(attempts[..|attempts| - 1]);
    }
  }

  /** The row of a case after its repeats, or left running if one of them raised. */
  function RowAfter(row: CaseRow, raised: bool, samples: seq<Sample>): CaseRow {
    if raised then row.(status := CaseState.Running) else CaseAfter(row, samples)
  }

  lemma RunCaseIs(p: Plan, d: Db, c: CaseId, first: nat)
    requires c in d.cases && first == NextRepeat(d.attempts, c)
    ensures var batch, samples := CaseBatch(p, c, first, first + p.repeats), Samples(p, c, first, first + p.repeats);
            RunCase(p, d, c) == CaseRun(Db(d.run, d.cases[c := RowAfter(d.cases[c], batch.raised, samples)],
              d.attempts + batch.rows, d.metrics), batch.raised, samples)
  {
    hide CaseBatch, Samples, CaseAfter, NextRepeat;
  }

  // ---- Retries that do not raise -------------------------------------------------------------------

  /** A repeat ahead of the case has a retry that raises. */
  ghost predicate RetryAheadRaises(p: Plan, d: Db, c: CaseId) {
    var first := NextRepeat(d.attempts, c);
    exists rep: nat | first <= rep < first + p.repeats :: RetryRaises(p, c, rep)
  }

  /** Whatever open case a loop goes on to execute, none of its retries raises. */
  ghost predicate QuietAhead(p: Plan, d: Db) {
    forall c | c in p.cases && c in d.cases && !CaseClosed(d.cases[c].status) :: !RetryAheadRaises(p, d, c)
  }

  /** No retry the session can come to raises. */
  ghost predicate QuietRetries(p: Plan, d: Db)
    requires DbInv(p, d)
  {
    forall c | c in p.cases && MustRun(d.run, d.cases[c].status) :: !RetryAheadRaises(p, d, c)
  }

  lemma QuietAtStart(p: Plan, d: Db)
    requires DbInv(p, d) && QuietRetries(p, d)
    ensures QuietAhead(p, Start(d))
  {
    forall c | c in p.cases && !CaseClosed(Start(d).cases[c].status) ensures !RetryAheadRaises(p, Start(d), c) {
      RestartOpens(d.run, d.cases[c]);
      NextRepeatOrphaned(d.attempts, c);
      hide MustRun, RetryRaises, NextRepeat, OrphanAll;
    }
  }

  lemma QuietStays(p: Plan, d: Db, c: CaseId, landed: Landed)
    requires QuietAhead(p, d) && c in d.cases && !RunCase(p, d, c).raised
    ensures QuietAhead(p, Streamed(p, RunCase(p, d, c).db, landed, true, false))
  {
    hide RunCase, NextRepeat, WriteMetrics, RetryAheadRaises, CaseClosed;
    var e := Streamed(p, RunCase(p, d, c).db, landed, true, false);
    RunCaseCloses(p, d, c);
    forall x | x in p.cases && x in e.cases && !CaseClosed(e.cases[x].status) ensures !RetryAheadRaises(p, e, x) {
      OthersGoOn(p, d, c, x);
      SameAhead(p, d, e, x);
    }
  }

  /** A case that is run is closed, and the other cases keep their rows. */
  lemma RunCaseCloses(p: Plan, d: Db, c: CaseId)
    requires c in d.cases && !RunCase(p, d, c).raised
    ensures var e := RunCase(p, d, c).db;
            c in e.cases && CaseClosed(e.cases[c].status) && e.cases == d.cases[c := e.cases[c]]
  {
    var first := NextRepeat(d.attempts, c);
    hide RunCase, CaseBatch, Samples, CaseAfter, NextRepeat, CaseClosed;
    RunCaseIs(p, d, c, first);
    CaseCloses(d.cases[c], Samples(p, c, first, first + p.repeats));
  }

  /** The attempts of the other cases go on where they would have. */
  lemma OthersGoOn(p: Plan, d: Db, c: CaseId, x: CaseId)
    requires c in d.cases && x != c
    ensures NextRepeat(RunCase(p, d, c).db.attempts, x) == NextRepeat(d.attempts, x)
  {
    var first := NextRepeat(d.attempts, c);
    hide RunCase, CaseBatch, Samples, RowAfter, NextRepeat;
    RunCaseIs(p, d, c, first);
    CaseBatchIsInOrder(p, c, first, first + p.repeats);
    NextRepeatOfOthers(d.attempts, CaseBatch(p, c, first, first + p.repeats).rows, x);
  }

  lemma SameAhead(p: Plan, d: Db, e: Db, c: CaseId)
    requires NextRepeat(e.attempts, c) == NextRepeat(d.attempts, c)
    ensures RetryAheadRaises(p, e, c) <==> RetryAheadRaises(p, d, c)
  {
    hide NextRepeat, RetryRaises;
  }

  lemma CaseCloses(row: CaseRow, samples: seq<Sample>)
    ensures CaseClosed(CaseAfter(row, samples).status)
  {
  }

  /** With quiet retries a repeat raises exactly if its first attempt does. */
  lemma RepeatRaisesFirst(p: Plan, c: CaseId, rep: nat)
    requires !RetryRaises(p, c, rep)
    ensures RepeatBatch(p, c, rep).raised <==> LiveScores(p, AttemptKey(c, rep, 0)).None?
  {
    if LiveScores(p, AttemptKey(c, rep, 0)).Some? {
      RepeatRaisesExactly(p, c, rep);
    }
  }

  /** The first attempts of a case and whether it raises do not depend on the retries. */
  lemma {:induction false} CaseFirsts(p: Plan, q: Plan, c: CaseId, first: nat, last: nat)
    requires Twins(p, q) && first <= last
    requires forall rep: nat | first <= rep < last :: !RetryRaises(p, c, rep) && !RetryRaises(q, c, rep)
    ensures CaseBatch(p, c, first, last).raised == CaseBatch(q, c, first, last).raised
    ensures Firsts(CaseBatch(p, c, first, last).rows) == Firsts(CaseBatch(q, c, first, last).rows)
    decreases last - first
  {
    if first < last {
      var key := AttemptKey(c, first, 0);
      assert p.agent(key) == q.agent(key);
      RepeatRaisesFirst(p, c, first);
      RepeatRaisesFirst(q, c, first);
      CaseFirsts(p, q, c, first + 1, last);
      RepeatFirsts(p, c, first);
      RepeatFirsts(q, c, first);
      hide RepeatBatch, Firsts, RetryRaises;
      FirstsConcat(RepeatBatch(p, c, first).rows, CaseBatch(p, c, first + 1, last).rows);
      FirstsConcat(RepeatBatch(q, c, first).rows, CaseBatch(q, c, first + 1, last).rows);
    }
  }

  lemma TwinSamples(p: Plan, q: Plan, c: CaseId, first: nat, last: nat)
    requires Twins(p, q) && first <= last
    ensures Samples(p, c, first, last) == Samples(q, c, first, last)
  {
    var xs, ys := Samples(p, c, first, last), Samples(q, c, first, last);
    forall i | 0 <= i < |xs| ensures xs[i] == ys[i] {
      var key := AttemptKey(c, first + i, 0);
      assert xs[i] == SampleOf(p, key) && ys[i] == SampleOf(q, key);
      assert p.agent(key) == q.agent(key);
    }
  }

  lemma RunCaseTwins(p: Plan, q: Plan, d: Db, e: Db, c: CaseId)
    requires Twins(p, q) && !RetryAheadRaises(p, d, c) && !RetryAheadRaises(q, e, c)
    requires Same(d, e) && c in d.cases && NextRepeat(d.attempts, c) == NextRepeat(e.attempts, c)
    ensures var r, s := RunCase(p, d, c), RunCase(q, e, c);
            r.raised == s.raised && r.samples == s.samples && Same(r.db, s.db)
  {
    var first := NextRepeat(d.attempts, c);
    hide RunCase, NextRepeat, CaseBatch, Samples, RowAfter, Firsts, RetryRaises;
    RunCaseIs(p, d, c, first);
    RunCaseIs(q, e, c, first);
    TwinSamples(p, q, c, first, first + p.repeats);
    CaseFirsts(p, q, c, first, first + p.repeats);
    FirstsConcat(d.attempts, CaseBatch(p, c, first, first + p.repeats).rows);
    FirstsConcat(e.attempts, CaseBatch(q, c, first, first + p.repeats).rows);
  }

  lemma {:induction false} WriteMetricsTwins(p: Plan, q: Plan, rows: map<string, MetricRow>,
      landed: Landed, inProgress: bool, final: bool, i: nat)
    requires Twins(p, q) && i <= |p.metrics|
    ensures WriteMetrics(p, rows, landed, inProgress, final, i) == WriteMetrics(q, rows, landed, inProgress, final, i)
  {
    if i > 0 {
      hide AggregateMetric, Column;
      WriteMetricsTwins(p, q, rows, landed, inProgress, final, i - 1);
    }
  }

  lemma StreamedTwins(p: Plan, q: Plan, d: Db, e: Db, landed: Landed, inProgress: bool, final: bool)
    requires Twins(p, q) && Same(d, e)
    ensures Same(Streamed(p, d, landed, inProgress, final), Streamed(q, e, landed, inProgress, final))
  {
    hide WriteMetrics, Firsts;
    WriteMetricsTwins(p, q, d.metrics, landed, inProgress, final, |p.metrics|);
  }

  ghost predicate SameEnd(l: LoopEnd, k: LoopEnd) {
    l.how == k.how && l.executed == k.executed && l.landed == k.landed && Same(l.db, k.db)
  }

  /** One case of two twin loops: they agree on how it ends and on the tables the loops go on with. */
  lemma StepTwins(p: Plan, q: Plan, d: Db, e: Db, c: CaseId, landed: Landed)
    requires Twins(p, q) && !RetryAheadRaises(p, d, c) && !RetryAheadRaises(q, e, c)
    requires DbInv(p, d) && DbInv(q, e) && Same(d, e) && c in p.cases && c in d.cases && c in e.cases
    ensures var r, s := RunCase(p, d, c), RunCase(q, e, c);
            var landed' := landed + LandedOf(r.samples);
            var d', e' := Streamed(p, r.db, landed', true, false), Streamed(q, s.db, landed', true, false);
            && r.raised == s.raised && r.samples == s.samples && Same(r.db, s.db)
            && DbInv(p, d') && DbInv(q, e') && Same(d', e')
  {
    hide RunCase, Streamed, LandedOf, Firsts, RetryAheadRaises, Twins, NextRepeat;
    NextRepeatByFirsts(d.attempts, c);
    NextRepeatByFirsts(e.attempts, c);
    hide Same;
    RunCaseTwins(p, q, d, e, c);
    RunCaseKeepsInv(p, d, c);
    RunCaseKeepsInv(q, e, c);
    var landed' := landed + LandedOf(RunCase(p, d, c).samples);
    StreamedTwins(p, q, RunCase(p, d, c).db, RunCase(q, e, c).db, landed', true, false);
    StreamedKeeps(p, RunCase(p, d, c).db, landed', true, false);
    StreamedKeeps(q, RunCase(q, e, c).db, landed', true, false);
  }

  lemma {:induction false} LoopTwins(p: Plan, q: Plan, d: Db, e: Db, i: nat, executed: set<CaseId>,
      landed: Landed, cancel: nat -> bool)
    requires Twins(p, q) && QuietAhead(p, d) && QuietAhead(q, e)
    requires DbInv(p, d) && DbInv(q, e) && Same(d, e) && i <= |p.cases|
    ensures SameEnd(Loop(p, d, i, executed, landed, cancel), Loop(q, e, i, executed, landed, cancel))
    decreases |p.cases| - i
  {
    hide RunCase, Streamed, LandedOf, Firsts, SomeCancelled, RetryAheadRaises;
    if i < |p.cases| && !cancel(i) {
      var c := p.cases[i];
      assert c in p.cases;
      if CaseClosed(d.cases[c].status) {
        LoopTwins(p, q, d, e, i + 1, executed, landed, cancel);
      } else {
        StepTwins(p, q, d, e, c, landed);
        var r, s := RunCase(p, d, c), RunCase(q, e, c);
        if !r.raised && !SomeCancelled(r.samples) {
          var landed' := landed + LandedOf(r.samples);
          QuietStays(p, d, c, landed');
          QuietStays(q, e, c, landed');
          LoopTwins(p, q, Streamed(p, r.db, landed', true, false), Streamed(q, s.db, landed', true, false), i + 1,
                    executed + {c}, landed', cancel);
        }
      }
    }
  }

  lemma StartTwins(d: Db, e: Db)
    requires Same(d, e)
    ensures Same(Start(d), Start(e))
  {
    hide Firsts, OrphanAll;
    FirstsOrphaned(d.attempts);
    FirstsOrphaned(e.attempts);
  }

  lemma CancelTwins(p: Plan, q: Plan, l: LoopEnd, k: LoopEnd)
    requires Twins(p, q) && SameEnd(l, k)
    ensures Cancel(p, l).ending == Cancel(q, k).ending && Same(Cancel(p, l).db, Cancel(q, k).db)
  {
    hide WriteMetrics, Firsts;
    WriteMetricsTwins(p, q, l.db.metrics, l.landed, false, false, |p.metrics|);
  }

  lemma FinalizeTwins(p: Plan, q: Plan, l: LoopEnd, k: LoopEnd)
    requires Twins(p, q) && SameEnd(l, k)
    ensures Finalize(p, l).ending == Finalize(q, k).ending && Same(Finalize(p, l).db, Finalize(q, k).db)
  {
    hide RescoreRest, Firsts, Streamed;
    RescoreRestByFirsts(p, q, l.db.attempts, k.db.attempts, l.executed, |p.cases|);
    var more := RescoreRest(p, l.db.attempts, l.executed, |p.cases|);
    if more.Some? {
      StreamedTwins(p, q, l.db, k.db, l.landed + more.value, false, true);
    }
  }

  /**
   Two sessions whose first attempts agree end alike, whatever their retry limits and retries, as long
   as no retry they can come to raises: same ending, be it an error, same run and case statuses and
   classifications, same first attempts, same metric rows and gates.
  */
  lemma RetriesChangeNothing(p: Plan, q: Plan, d: Db, e: Db, cancel: nat -> bool)
    requires Twins(p, q) && DbInv(p, d) && DbInv(q, e) && Same(d, e)
    requires QuietRetries(p, d) && QuietRetries(q, e)
    ensures RunSession(p, d, cancel).ending == RunSession(q, e, cancel).ending
    ensures Same(RunSession(p, d, cancel).db, RunSession(q, e, cancel).db)
  {
    hide RunSession, Start, Loop, Cancel, Finalize, DbInv, Twins, QuietRetries, QuietAhead, Firsts;
    SessionIs(p, d, cancel);
    SessionIs(q, e, cancel);
    if !d.run.Complete? && !d.run.Failed? {
      StartSettles(p, d);
      StartSettles(q, e);
      StartTwins(d, e);
      QuietAtStart(p, d);
      QuietAtStart(q, e);
      LoopTwins(p, q, Start(d), Start(e), 0, {}, [], cancel);
      var l, k := Loop(p, Start(d), 0, {}, [], cancel), Loop(q, Start(e), 0, {}, [], cancel);
      CancelTwins(p, q, l, k);
      FinalizeTwins(p, q, l, k);
    }
  }

  // ---- Exactly when a retry fails a run -----------------------------------------------------------

  lemma {:induction false} CaseRaisesExactly(p: Plan, c: CaseId, first: nat, last: nat)
    ensures CaseBatch(p, c, first, last).raised <==> exists rep: nat | first <= rep < last :: RepeatBatch(p, c, rep).raised
    decreases last - first
  {
    if first < last {
      hide RepeatBatch;
      CaseRaisesExactly(p, c, first + 1, last);
    }
  }

  /** A repeat of the block this case would run next raises. */
  ghost predicate CaseRaises(p: Plan, d: Db, c: CaseId) {
    var first := NextRepeat(d.attempts, c);
    exists rep: nat | first <= rep < first + p.repeats :: RepeatBatch(p, c, rep).raised
  }

  ghost predicate OpenCaseRaises(p: Plan, d: Db, j: nat) {
    && j < |p.cases| && p.cases[j] in d.cases
    && !CaseClosed(d.cases[p.cases[j]].status) && CaseRaises(p, d, p.cases[j])
  }

  lemma SameOutlook(p: Plan, d: Db, e: Db, j: nat)
    requires j < |p.cases| && (p.cases[j] in d.cases <==> p.cases[j] in e.cases)
    requires p.cases[j] in d.cases ==> d.cases[p.cases[j]] == e.cases[p.cases[j]]
    requires NextRepeat(d.attempts, p.cases[j]) == NextRepeat(e.attempts, p.cases[j])
    ensures OpenCaseRaises(p, d, j) <==> OpenCaseRaises(p, e, j)
  {
    hide NextRepeat, RepeatBatch, CaseClosed;
  }

  /** Executing one case leaves the outlook of every other as it is. */
  lemma OthersUnchanged(p: Plan, d: Db, e: Db, i: nat, j: nat)
    requires ValidPlan(p) && i < |p.cases| && p.cases[i] in d.cases && i != j
    requires var r := RunCase(p, d, p.cases[i]).db; e.cases == r.cases && e.attempts == r.attempts
    ensures OpenCaseRaises(p, d, j) <==> OpenCaseRaises(p, e, j)
  {
    hide CaseBatch, RowAfter, Samples, NextRepeat, RunCase, CaseRaises;
    if j < |p.cases| {
      hide OpenCaseRaises;
      RunCaseIs(p, d, p.cases[i], NextRepeat(d.attempts, p.cases[i]));
      OthersGoOn(p, d, p.cases[i], p.cases[j]);
      SameOutlook(p, d, e, j);
    }
  }

  lemma RunCaseRaises(p: Plan, d: Db, c: CaseId)
    requires c in d.cases
    ensures RunCase(p, d, c).raised <==> CaseRaises(p, d, c)
  {
    var first := NextRepeat(d.attempts, c);
    CaseRaisesExactly(p, c, first, first + p.repeats);
    hide CaseBatch, CaseAfter, Samples, NextRepeat, RepeatBatch;
  }

  ghost predicate SomeOpenCaseRaises(p: Plan, d: Db, i: nat) { exists j | i <= j :: OpenCaseRaises(p, d, j) }

  lemma ClosedCaseAside(p: Plan, d: Db, i: nat)
    requires !OpenCaseRaises(p, d, i)
    ensures SomeOpenCaseRaises(p, d, i) <==> SomeOpenCaseRaises(p, d, i + 1)
  {
    hide OpenCaseRaises;
  }

  lemma OthersOutlook(p: Plan, d: Db, e: Db, i: nat)
    requires ValidPlan(p) && i < |p.cases| && p.cases[i] in d.cases
    requires var r := RunCase(p, d, p.cases[i]).db; e.cases == r.cases && e.attempts == r.attempts
    ensures SomeOpenCaseRaises(p, d, i + 1) <==> SomeOpenCaseRaises(p, e, i + 1)
  {
    forall j | i + 1 <= j ensures OpenCaseRaises(p, d, j) <==> OpenCaseRaises(p, e, j) {
      OthersUnchanged(p, d, e, i, j);
    }
    hide OpenCaseRaises;
  }

  /** A loop that nothing stops raises exactly if some open case does. */
  lemma {:induction false} LoopRaisesExactly(p: Plan, d: Db, i: nat, executed: set<CaseId>,
      landed: Landed, cancel: nat -> bool)
    requires ValidPlan(p) && AgentNeverCancels(p) && !AsksToCancel(p, cancel)
    requires i <= |p.cases| && forall c | c in p.cases :: c in d.cases
    ensures var l := Loop(p, d, i, executed, landed, cancel);
            && l.db.run == d.run
            && l.how == if SomeOpenCaseRaises(p, d, i) then Raised else Finished
    decreases |p.cases| - i
  {
    hide RunCase, Streamed, LandedOf, SomeCancelled, AgentNeverCancels, ValidPlan, CaseRaises, SomeOpenCaseRaises;
    if i == |p.cases| {
      NoneLeft(p, d);
    } else {
      var c := p.cases[i];
      assert !cancel(i);
      if CaseClosed(d.cases[c].status) {
        ClosedCaseAside(p, d, i);
        LoopRaisesExactly(p, d, i + 1, executed, landed, cancel);
      } else {
        var r := RunCase(p, d, c);
        var landed' := landed + LandedOf(r.samples);
        var e := Streamed(p, r.db, landed', true, false);
        RunCaseRaises(p, d, c);
        RunCaseKeeps(p, d, c, landed');
        if r.raised {
          RaisesHere(p, d, i);
        } else {
          ClosedCaseAside(p, d, i);
          OthersOutlook(p, d, e, i);
          LoopRaisesExactly(p, e, i + 1, executed + {c}, landed', cancel);
        }
      }
    }
  }

  lemma NoneLeft(p: Plan, d: Db)
    ensures !SomeOpenCaseRaises(p, d, |p.cases|)
  {
  }

  lemma RaisesHere(p: Plan, d: Db, i: nat)
    requires OpenCaseRaises(p, d, i)
    ensures SomeOpenCaseRaises(p, d, i)
  {
    hide OpenCaseRaises;
  }

  lemma RunCaseKeeps(p: Plan, d: Db, c: CaseId, landed: Landed)
    requires AgentNeverCancels(p) && c in d.cases
    ensures var r := RunCase(p, d, c);
            var e := Streamed(p, r.db, landed, true, false);
            && r.db.run == d.run == e.run && e.cases == r.db.cases && e.attempts == r.db.attempts
            && r.db.cases.Keys == d.cases.Keys && !SomeCancelled(r.samples)
  {
    var first := NextRepeat(d.attempts, c);
    SamplesNeverCancel(p, c, first, first + p.repeats);
    hide CaseBatch, CaseAfter, Samples, NextRepeat, SomeCancelled, WriteMetrics;
  }

  lemma StartOutlook(p: Plan, d: Db, j: nat)
    requires DbInv(p, d) && j < |p.cases| && p.cases[j] in p.cases
    ensures OpenCaseRaises(p, Start(d), j) <==>
              p.cases[j] in d.cases && MustRun(d.run, d.cases[p.cases[j]].status) && CaseRaises(p, d, p.cases[j])
  {
    NextRepeatOrphaned(d.attempts, p.cases[j]);
    hide NextRepeat, RepeatBatch, KeysDistinct, RetriesFollow, OrphanAll;
  }

  lemma RaisesByRetry(p: Plan, d: Db, c: CaseId)
    requires NeverRaises(WithoutRetries(p))
    ensures CaseRaises(p, d, c) <==> RetryAheadRaises(p, d, c)
  {
    var first := NextRepeat(d.attempts, c);
    forall rep: nat | first <= rep < first + p.repeats ensures RepeatBatch(p, c, rep).raised <==> RetryRaises(p, c, rep) {
      assert LiveScores(WithoutRetries(p), AttemptKey(c, rep, 0)).Some?;
      RepeatRaisesExactly(p, c, rep);
    }
    hide NextRepeat, RepeatBatch, RetryRaises, NeverRaises;
  }

  /**
   Where a run without retries would complete undisturbed, allowing retries fails it exactly if, in
   some case the session must run, a retry it comes to raises; otherwise it completes all the same.
  */
  lemma RaisingRetryFailsExactly(p: Plan, d: Db, cancel: nat -> bool)
    requires ValidPlan(p) && DbInv(p, d) && !d.run.Complete? && !d.run.Failed?
    requires NeverRaises(WithoutRetries(p)) && AgentNeverCancels(p) && !AsksToCancel(p, cancel)
    ensures DbInv(WithoutRetries(p), d) && RunSession(WithoutRetries(p), d, cancel).ending.WasCompleted?
    ensures RunSession(p, d, cancel).ending
         == if exists c | c in p.cases :: MustRun(d.run, d.cases[c].status) && RetryAheadRaises(p, d, c) then HadError
            else WasCompleted
  {
    hide RunSession, Start, Loop, CaseRaises, RetryAheadRaises, Finalize, ValidPlan, KeysDistinct, RetriesFollow,
         MustRun, Settled, LiveScores, ScoreAll;
    var q, start := WithoutRetries(p), Start(d);
    QuietSessionsLand(q, d, cancel);
    SessionIs(p, d, cancel);
    StartSettles(p, d);
    LoopRaisesExactly(p, start, 0, {}, [], cancel);
    var l := Loop(p, start, 0, {}, [], cancel);
    RescoresAlike(p, l);
    forall j: nat | j < |p.cases|
      ensures OpenCaseRaises(p, start, j) <==> MustRun(d.run, d.cases[p.cases[j]].status) && RetryAheadRaises(p, d, p.cases[j])
    {
      assert p.cases[j] in p.cases;
      StartOutlook(p, d, j);
      RaisesByRetry(p, d, p.cases[j]);
    }
    OutlookByCase(p, d, start);
  }

  lemma RescoresAlike(p: Plan, l: LoopEnd)
    requires NeverRaises(WithoutRetries(p))
    ensures Finalize(p, l).ending.WasCompleted?
  {
    TwinRescoring(p, l.db.attempts, l.executed, |p.cases|);
    RescoreNeverRaises(WithoutRetries(p), l.db.attempts, l.executed, |p.cases|);
    hide RescoreRest, WriteMetrics, NeverRaises;
  }

  lemma TwinRescoring(p: Plan, attempts: seq<AttemptRow>, executed: set<CaseId>, i: nat)
    requires i <= |p.cases|
    ensures RescoreRest(p, attempts, executed, i) == RescoreRest(WithoutRetries(p), attempts, executed, i)
  {
    RescoreRestByFirsts(p, WithoutRetries(p), attempts, attempts, executed, i);
  }

  lemma OutlookByCase(p: Plan, d: Db, start: Db)
    requires forall c | c in p.cases :: c in d.cases
    requires forall j: nat | j < |p.cases| ::
               OpenCaseRaises(p, start, j) <==> MustRun(d.run, d.cases[p.cases[j]].status) && RetryAheadRaises(p, d, p.cases[j])
    ensures SomeOpenCaseRaises(p, start, 0) <==>
              exists c | c in p.cases :: MustRun(d.run, d.cases[c].status) && RetryAheadRaises(p, d, c)
  {
    hide RetryAheadRaises, MustRun;
    if SomeOpenCaseRaises(p, start, 0) {
      var j :| 0 <= j && OpenCaseRaises(p, start, j);
      assert p.cases[j] in p.cases;
    }
    if c :| c in p.cases && MustRun(d.run, d.cases[c].status) && RetryAheadRaises(p, d, c) {
      var j :| 0 <= j < |p.cases| && p.cases[j] == c;
      assert OpenCaseRaises(p, start, j);
    }
  }
}
