/**
 Resume equivalence: a run cancelled at case boundaries and resumed any number of times ends
 with exactly the tables of the uninterrupted run, when evaluators are repeatable and every
 first attempt completes; and where a first attempt did not complete, re-scoring counts it.
*/
module SessionResume {
  import opened Wrappers
  import opened Lifecycle
  import opened Scoring
  import opened Aggregation
  import opened Sessions
  import opened SessionClosure

  const WAITING := CaseRow(CaseState.Queued, None, None)
  const SET_ASIDE := CaseRow(CaseState.Cancelled, None, None)

  /** Re-scoring a trace gives what scoring it live gave, every first attempt completes, and nothing raises. */
  ghost predicate Repeatable(p: Plan) {
    && ValidPlan(p)
    && (forall m, c, trace :: p.live(m, c, trace) == p.rescore(m, c, trace))
    && (forall c, rep: nat | c in p.cases && rep < p.repeats :: p.agent(AttemptKey(c, rep, 0)).Done?)
    && (forall c | c in p.cases :: !CaseBatch(p, c, 0, p.repeats).raised)
  }

  // ---- Re-scoring a case gives back what it scored live -----------------------------------------

  lemma {:induction false} LandedConcat(xs: seq<Sample>, ys: seq<Sample>)
    ensures LandedOf(xs + ys) == LandedOf(xs) + LandedOf(ys)
  {
    if ys == [] {
      assert xs + ys == xs;
    } else {
      LandedConcat(xs, ys[..|ys| - 1]);
      assert (xs + ys)[..|xs + ys| - 1] == xs + ys[..|ys| - 1];
    }
  }

  lemma Reassociate(xs: Landed, ys: Landed, v: seq<CaseScore>)
    ensures xs + ys + [v] == xs + (ys + [v])
  {
  }

  lemma {:induction false} RescoreConcat(p: Plan, xs: seq<AttemptRow>, ys: seq<AttemptRow>, c: CaseId)
    requires RescoreCase(p, xs, c).Some? && RescoreCase(p, ys, c).Some?
    ensures RescoreCase(p, xs + ys, c) == Some(RescoreCase(p, xs, c).value + RescoreCase(p, ys, c).value)
  {
    if ys == [] {
      assert xs + ys == xs && RescoreCase(p, xs, c).value + [] == RescoreCase(p, xs, c).value;
    } else {
      hide ScoreAll;
      var front, a := ys[..|ys| - 1], ys[|ys| - 1];
      RescoreConcat(p, xs, front, c);
      assert (xs + ys)[..|xs + ys| - 1] == xs + front && (xs + ys)[|xs + ys| - 1] == a;
      if a.key.caseId == c && a.key.attempt == 0 {
        Reassociate(RescoreCase(p, xs, c).value, RescoreCase(p, front, c).value, ScoreAll(p.metrics, p.rescore, c, a.trace, false).value);
      }
    }
  }

  /** Rows of other cases, and retries, are not re-scored. */
  lemma {:induction false} RescoreSkips(p: Plan, rows: seq<AttemptRow>, c: CaseId)
    requires forall r | r in rows :: r.key.caseId != c || r.key.attempt > 0
    ensures RescoreCase(p, rows, c) == Some([])
  {
    if rows != [] {
      RescoreSkips(p, rows[..|rows| - 1], c);
      assert rows[|rows| - 1] in rows;
    }
  }

  lemma {:induction false} SameScores(metrics: seq<Metric>, f: Scorer, g: Scorer, c: CaseId, trace: Trace, retry: bool)
    requires forall m: Metric :: f(m, c, trace) == g(m, c, trace)
    ensures ScoreAll(metrics, f, c, trace, retry) == ScoreAll(metrics, g, c, trace, retry)
  {
    if metrics != [] {
      SameScores(metrics[..|metrics| - 1], f, g, c, trace, retry);
    }
  }

  lemma RescoreOne(p: Plan, row: AttemptRow)
    requires row.key.attempt == 0
    ensures RescoreCase(p, [row], row.key.caseId) ==
              match ScoreAll(p.metrics, p.rescore, row.key.caseId, row.trace, false) {
                case None => None
                case Some(v) => Some([v])
              }
  {
    hide ScoreAll;
    assert [row][..|[row]| - 1] == [];
    assert RescoreCase(p, [], row.key.caseId) == Some([]);
    assert forall v: seq<CaseScore> :: [] + [v] == [v];
  }

  lemma RescoreRepeat(p: Plan, c: CaseId, rep: nat)
    requires RescoreCase(p, [FinalRow(p, AttemptKey(c, rep, 0))], c).Some?
    ensures RescoreCase(p, RepeatBatch(p, c, rep).rows, c) == RescoreCase(p, [FinalRow(p, AttemptKey(c, rep, 0))], c)
  {
    var rows, row := RepeatBatch(p, c, rep).rows, FinalRow(p, AttemptKey(c, rep, 0));
    RepeatIsNumbered(p, c, rep);
    assert rows[0] == row;
    assert rows == [row] + rows[1..];
    hide RepeatBatch, FinalRow, RescoreCase;
    forall r | r in rows[1..] ensures r.key.attempt > 0 {
      var i :| 1 <= i < |rows| && rows[i] == r;
    }
    RescoreSkips(p, rows[1..], c);
    RescoreConcat(p, [row], rows[1..], c);
    assert forall landed: Landed :: landed + [] == landed;
  }

  lemma DoneRescores(p: Plan, c: CaseId, rep: nat)
    requires forall m, c, trace :: p.live(m, c, trace) == p.rescore(m, c, trace)
    requires p.agent(AttemptKey(c, rep, 0)).Done? && LiveScores(p, AttemptKey(c, rep, 0)).Some?
    ensures RescoreCase(p, [FinalRow(p, AttemptKey(c, rep, 0))], c) == Some(LandedOf([SampleOf(p, AttemptKey(c, rep, 0))]))
  {
    hide ScoreAll;
    var key := AttemptKey(c, rep, 0);
    SameScores(p.metrics, p.live, p.rescore, c, p.agent(key).trace, false);
    RescoreOne(p, FinalRow(p, key));
    var s := SampleOf(p, key);
    assert [s][..|[s]| - 1] == [];
    assert LandedOf([s]) == [s.scores];
  }

  lemma SamplesSplit(p: Plan, c: CaseId, first: nat, last: nat)
    requires first < last
    ensures Samples(p, c, first, last) == [SampleOf(p, AttemptKey(c, first, 0))] + Samples(p, c, first + 1, last)
  {
  }

  /** Re-scoring an executed case gives back exactly the scores that landed live, in order. */
  lemma {:induction false} RescoringIsLive(p: Plan, c: CaseId, first: nat, last: nat)
    requires first <= last
    requires forall m, c, trace :: p.live(m, c, trace) == p.rescore(m, c, trace)
    requires forall rep: nat | first <= rep < last :: p.agent(AttemptKey(c, rep, 0)).Done?
    requires !CaseBatch(p, c, first, last).raised
    ensures RescoreCase(p, CaseBatch(p, c, first, last).rows, c) == Some(LandedOf(Samples(p, c, first, last)))
    decreases last - first
  {
    if first < last {
      var key := AttemptKey(c, first, 0);
      assert LiveScores(p, key).Some?;
      DoneRescores(p, c, first);
      RescoreRepeat(p, c, first);
      RescoringIsLive(p, c, first + 1, last);
      hide RescoreCase, RepeatBatch, LandedOf, SampleOf, LiveScores, FinalRow, Samples;
      RescoreConcat(p, RepeatBatch(p, c, first).rows, CaseBatch(p, c, first + 1, last).rows, c);
      SamplesSplit(p, c, first, last);
      LandedConcat([SampleOf(p, key)], Samples(p, c, first + 1, last));
    }
  }

  // ---- Progress through the cases ---------------------------------------------------------------

  function FinishedRow(p: Plan, c: CaseId): CaseRow { CaseAfter(WAITING, Samples(p, c, 0, p.repeats)) }

  function CaseRows(p: Plan, c: CaseId): seq<AttemptRow> { CaseBatch(p, c, 0, p.repeats).rows }

  /** The attempts of the first k cases. */
  function AllRows(p: Plan, k: nat): seq<AttemptRow>
    requires k <= |p.cases|
  {
    if k == 0 then [] else AllRows(p, k - 1) + CaseRows(p, p.cases[k - 1])
  }

  /** What executing cases lo, ..., hi - 1 lands. */
  function AllLanded(p: Plan, lo: nat, hi: nat): Landed
    requires lo <= hi <= |p.cases|
    decreases hi - lo
  {
    if lo == hi then [] else AllLanded(p, lo, hi - 1) + LandedOf(Samples(p, p.cases[hi - 1], 0, p.repeats))
  }

  function Executed(p: Plan, lo: nat, hi: nat): set<CaseId>
    requires lo <= hi <= |p.cases|
  {
    set j | lo <= j < hi :: p.cases[j]
  }

  /** The first k cases have run; the others hold the given row. */
  ghost predicate Progress(p: Plan, d: Db, k: nat, row: CaseRow) {
    && k <= |p.cases|
    && (forall c :: c in d.cases <==> c in p.cases)
    && d.attempts == AllRows(p, k)
    && (forall j | 0 <= j < k :: d.cases[p.cases[j]] == FinishedRow(p, p.cases[j]))
    && (forall j | k <= j < |p.cases| :: d.cases[p.cases[j]] == row)
    && d.metrics.Keys <= MetricIds(p)
  }

  /** Between sessions: not yet begun, or cancelled after the k-th case. */
  ghost predicate Paused(p: Plan, d: Db, k: nat) {
    (d.run.Draft? && Progress(p, d, k, WAITING)) || (d.run.Cancelled? && Progress(p, d, k, SET_ASIDE))
  }

  ghost predicate Ready(p: Plan, d: Db, k: nat) { d.run.Running? && Progress(p, d, k, WAITING) }

  function Fresh(p: Plan): Db { Db(RunState.Draft, map c | c in p.cases :: WAITING, [], map[]) }

  /** The tables of the run nothing interrupted. */
  function Ideal(p: Plan): Db {
    Db(RunState.Complete, map c | c in p.cases :: FinishedRow(p, c), AllRows(p, |p.cases|),
       WriteMetrics(p, map[], AllLanded(p, 0, |p.cases|), false, true, |p.metrics|))
  }

  lemma SamplesComplete(p: Plan, c: CaseId)
    requires Repeatable(p) && c in p.cases
    ensures FinishedRow(p, c).status.Completed? && !SomeCancelled(Samples(p, c, 0, p.repeats))
  {
    var samples := Samples(p, c, 0, p.repeats);
    forall i | 0 <= i < |samples| ensures samples[i].status.Completed? {
      assert p.agent(AttemptKey(c, i, 0)).Done?;
    }
    assert samples[0] in samples;
  }

  lemma CaseRowsClosed(p: Plan, c: CaseId)
    ensures AttemptsClosed(CaseRows(p, c)) && forall r | r in CaseRows(p, c) :: r.key.caseId == c
  {
    hide CaseBatch;
    CaseBatchIsInOrder(p, c, 0, p.repeats);
  }

  ghost predicate OfFirst(p: Plan, k: nat, r: AttemptRow) {
    exists j | 0 <= j < k && j < |p.cases| :: r.key.caseId == p.cases[j]
  }

  lemma {:induction false} AllRowsClosed(p: Plan, k: nat)
    requires k <= |p.cases|
    ensures AttemptsClosed(AllRows(p, k)) && forall r | r in AllRows(p, k) :: OfFirst(p, k, r)
  {
    if k > 0 {
      AllRowsClosed(p, k - 1);
      AllRowsStep(p, k - 1);
      CaseRowsClosed(p, p.cases[k - 1]);
      hide AllRows, CaseRows;
      forall r | r in AllRows(p, k) ensures OfFirst(p, k, r) && AttemptClosed(r.status) {
        if r in AllRows(p, k - 1) {
          assert OfFirst(p, k - 1, r);
        } else {
          assert r in CaseRows(p, p.cases[k - 1]);
        }
      }
    }
  }

  lemma NothingToOrphan(rows: seq<AttemptRow>)
    requires AttemptsClosed(rows)
    ensures OrphanAll(rows) == rows
  {
    forall i | 0 <= i < |rows| ensures OrphanAll(rows)[i] == rows[i] {
      assert rows[i] in rows;
    }
  }

  /** A paused run starts ready to go on where it stopped. */
  lemma StartIsReady(p: Plan, d: Db, k: nat)
    requires Repeatable(p) && Paused(p, d, k)
    ensures Ready(p, Start(d), k)
  {
    hide AllRows, FinishedRow, Repeatable;
    AllRowsClosed(p, k);
    NothingToOrphan(d.attempts);
    forall j | 0 <= j < k ensures Start(d).cases[p.cases[j]] == FinishedRow(p, p.cases[j]) {
      SamplesComplete(p, p.cases[j]);
    }
  }

  lemma {:induction false} NextRepeatIsZero(attempts: seq<AttemptRow>, c: CaseId)
    requires forall r | r in attempts :: r.key.caseId != c
    ensures NextRepeat(attempts, c) == 0
  {
  }

  lemma NotYetAttempted(p: Plan, k: nat)
    requires ValidPlan(p) && k < |p.cases|
    ensures NextRepeat(AllRows(p, k), p.cases[k]) == 0
  {
    AllRowsClosed(p, k);
    NextRepeatIsZero(AllRows(p, k), p.cases[k]);
  }

  /** Executing the next case. */
  lemma ReadyStep(p: Plan, d: Db, k: nat)
    requires Repeatable(p) && Ready(p, d, k) && k < |p.cases|
    ensures var r := RunCase(p, d, p.cases[k]);
            && !r.raised && r.samples == Samples(p, p.cases[k], 0, p.repeats) && !SomeCancelled(r.samples)
            && Ready(p, r.db, k + 1)
  {
    hide CaseBatch, SomeCancelled, NextRepeat, SomeCompleted, Classify, CategoryOf;
    var c := p.cases[k];
    assert c in p.cases;
    NotYetAttempted(p, k);
    SamplesComplete(p, c);
    hide Samples, AllRows;
    assert AllRows(p, k + 1) == AllRows(p, k) + CaseRows(p, c) by { AllRowsStep(p, k); }
  }

  lemma AllRowsStep(p: Plan, k: nat)
    requires k < |p.cases|
    ensures AllRows(p, k + 1) == AllRows(p, k) + CaseRows(p, p.cases[k])
  {
  }

  lemma ReadyRows(p: Plan, d: Db, k: nat)
    requires Repeatable(p) && Ready(p, d, k)
    ensures k <= |p.cases| && d.run.Running? && forall c | c in p.cases :: c in d.cases
    ensures forall i | 0 <= i < k :: CaseClosed(d.cases[p.cases[i]].status)
    ensures k < |p.cases| ==> !CaseClosed(d.cases[p.cases[k]].status)
  {
    hide FinishedRow, AllRows;
    forall i | 0 <= i < k ensures CaseClosed(d.cases[p.cases[i]].status) {
      SamplesComplete(p, p.cases[i]);
    }
  }

  /** The loop skips the cases that have run. */
  lemma {:induction false} LoopSkips(p: Plan, d: Db, i: nat, k: nat, cancel: nat -> bool)
    requires Repeatable(p) && Ready(p, d, k) && i <= k
    requires forall c | c in p.cases :: c in d.cases
    ensures k <= |p.cases|
    ensures var l := Loop(p, d, i, {}, [], cancel);
            l == Loop(p, d, k, {}, [], cancel) || (l == LoopEnd(Stopped, d, {}, []) && exists j :: cancel(j))
    decreases k - i
  {
    hide Repeatable, Ready, RunCase, Streamed;
    ReadyRows(p, d, k);
    if i < k && !cancel(i) {
      LoopSkips(p, d, i + 1, k, cancel);
    }
  }

  lemma StreamedStaysReady(p: Plan, d: Db, k: nat, landed: Landed)
    requires Ready(p, d, k)
    ensures Ready(p, Streamed(p, d, landed, true, false), k)
  {
    hide WriteMetrics, IdsBefore, MetricIds, AllRows, FinishedRow;
    WriteMetricsKeys(p, d.metrics, landed, true, false, |p.metrics|);
    AllIds(p);
  }

  lemma ExecutedStep(p: Plan, lo: nat, hi: nat)
    requires lo <= hi < |p.cases|
    ensures Executed(p, lo, hi + 1) == Executed(p, lo, hi) + {p.cases[hi]}
  {
  }

  /** Polling never asks to cancel. */
  ghost predicate Undisturbed(cancel: nat -> bool) { forall i :: !cancel(i) }

  /** How a loop that started at case lo ends: some cases have run, and their scores have landed. */
  ghost predicate RanTo(p: Plan, lo: nat, n: nat, cancel: nat -> bool, l: LoopEnd) {
    && lo <= n <= |p.cases|
    && Ready(p, l.db, n) && l.executed == Executed(p, lo, n) && l.landed == AllLanded(p, lo, n)
    && !l.how.Raised? && (l.how.Finished? ==> n == |p.cases|)
    && (Undisturbed(cancel) ==> l.how.Finished?)
  }

  /** One turn of the loop that executes a case without a cancelled attempt. */
  lemma LoopTurn(p: Plan, d: Db, i: nat, executed: set<CaseId>, landed: Landed, cancel: nat -> bool)
    requires i < |p.cases| && !cancel(i) && forall c | c in p.cases :: c in d.cases
    requires !CaseClosed(d.cases[p.cases[i]].status)
    requires var r := RunCase(p, d, p.cases[i]); !r.raised && !SomeCancelled(r.samples)
    ensures var r := RunCase(p, d, p.cases[i]);
            var landed' := landed + LandedOf(r.samples);
            var e := Streamed(p, r.db, landed', true, false);
            && (forall c | c in p.cases :: c in e.cases)
            && Loop(p, d, i, executed, landed, cancel) == Loop(p, e, i + 1, executed + {p.cases[i]}, landed', cancel)
  {
    hide CaseBatch, LandedOf, WriteMetrics, SomeCancelled, CaseAfter, Samples, NextRepeat;
  }

  lemma LoopRests(p: Plan, d: Db, lo: nat, k: nat, cancel: nat -> bool)
    requires Ready(p, d, k) && lo <= k <= |p.cases| && forall c | c in p.cases :: c in d.cases
    requires k == |p.cases| || cancel(k)
    ensures RanTo(p, lo, k, cancel, Loop(p, d, k, Executed(p, lo, k), AllLanded(p, lo, k), cancel))
  {
    hide RunCase, Ready, Executed, AllLanded;
  }

  /** From the k-th case on the loop executes cases until it is stopped or done; it has then run n of them. */
  lemma {:induction false} LoopRuns(p: Plan, d: Db, lo: nat, k: nat, cancel: nat -> bool) returns (n: nat)
    requires Repeatable(p) && Ready(p, d, k) && lo <= k <= |p.cases| && forall c | c in p.cases :: c in d.cases
    ensures k <= n && RanTo(p, lo, n, cancel, Loop(p, d, k, Executed(p, lo, k), AllLanded(p, lo, k), cancel))
    decreases |p.cases| - k
  {
    hide Loop, RunCase, Repeatable, Streamed, Executed, LandedOf, SomeCancelled, Samples, Ready, RanTo;
    n := k;
    if k < |p.cases| && !cancel(k) {
      var r := RunCase(p, d, p.cases[k]);
      ReadyStep(p, d, k);
      ReadyRows(p, d, k);
      var landed := AllLanded(p, lo, k) + LandedOf(r.samples);
      assert landed == AllLanded(p, lo, k + 1);
      var e := Streamed(p, r.db, landed, true, false);
      StreamedStaysReady(p, r.db, k + 1, landed);
      ExecutedStep(p, lo, k);
      LoopTurn(p, d, k, Executed(p, lo, k), AllLanded(p, lo, k), cancel);
      n := LoopRuns(p, e, lo, k + 1, cancel);
    } else {
      LoopRests(p, d, lo, k, cancel);
    }
  }

  // ---- The order in which scores land does not matter -------------------------------------------

  lemma {:induction false} ColumnConcat(a: Landed, b: Landed, i: nat)
    ensures Column(a + b, i) == Column(a, i) + Column(b, i)
  {
    if b == [] {
      assert a + b == a;
    } else {
      ColumnConcat(a, b[..|b| - 1], i);
      assert (a + b)[..|a + b| - 1] == a + b[..|b| - 1];
    }
  }

  lemma SwapLanded(p: Plan, i: nat, a: Landed, b: Landed, inProgress: bool, final: bool)
    requires i < |p.metrics|
    ensures MetricRowFor(p, i, a + b, inProgress, final) == MetricRowFor(p, i, b + a, inProgress, final)
  {
    hide AggregateMetric, Column;
    ColumnConcat(a, b, i);
    ColumnConcat(b, a, i);
    AggregatePermutes(p.metrics[i], Column(a + b, i), Column(b + a, i), Expected(p), inProgress);
  }

  ghost predicate AgreeOn(ids: set<string>, x: map<string, MetricRow>, y: map<string, MetricRow>) {
    forall id | id in ids :: id in x && id in y && x[id] == y[id]
  }

  lemma AgreeMore(ids: set<string>, x: map<string, MetricRow>, y: map<string, MetricRow>, id: string, row: MetricRow)
    requires AgreeOn(ids, x, y)
    ensures AgreeOn(ids + {id}, x[id := row], y[id := row])
  {
  }

  lemma LastWritten(p: Plan, rows: map<string, MetricRow>, landed: Landed, i: nat)
    requires 0 < i <= |p.metrics|
    ensures WriteMetrics(p, rows, landed, false, true, i)
         == WriteMetrics(p, rows, landed, false, true, i - 1)[p.metrics[i - 1].id := MetricRowFor(p, i - 1, landed, false, true)]
    ensures IdsBefore(p, i) == IdsBefore(p, i - 1) + {p.metrics[i - 1].id}
  {
    hide MetricRowFor;
  }

  /** Two collections of scores that make the same rows. */
  ghost predicate SameRows(p: Plan, x: Landed, y: Landed) {
    forall k | 0 <= k < |p.metrics| :: MetricRowFor(p, k, x, false, true) == MetricRowFor(p, k, y, false, true)
  }

  lemma {:induction false} WrittenAgree(p: Plan, rows: map<string, MetricRow>, x: Landed, y: Landed, i: nat)
    requires i <= |p.metrics| && SameRows(p, x, y)
    ensures AgreeOn(IdsBefore(p, i), WriteMetrics(p, rows, x, false, true, i), WriteMetrics(p, map[], y, false, true, i))
  {
    hide MetricRowFor;
    if i > 0 {
      hide AgreeOn, WriteMetrics, IdsBefore;
      WrittenAgree(p, rows, x, y, i - 1);
      LastWritten(p, rows, x, i);
      LastWritten(p, map[], y, i);
      AgreeMore(IdsBefore(p, i - 1), WriteMetrics(p, rows, x, false, true, i - 1), WriteMetrics(p, map[], y, false, true, i - 1),
                p.metrics[i - 1].id, MetricRowFor(p, i - 1, x, false, true));
    }
  }

  lemma SameMetricRows(p: Plan, rows: map<string, MetricRow>, a: Landed, b: Landed)
    requires rows.Keys <= MetricIds(p)
    ensures WriteMetrics(p, rows, a + b, false, true, |p.metrics|) == WriteMetrics(p, map[], b + a, false, true, |p.metrics|)
  {
    hide WriteMetrics, MetricIds, IdsBefore, MetricRowFor;
    forall k | 0 <= k < |p.metrics| ensures MetricRowFor(p, k, a + b, false, true) == MetricRowFor(p, k, b + a, false, true) {
      SwapLanded(p, k, a, b, false, true);
    }
    WrittenAgree(p, rows, a + b, b + a, |p.metrics|);
    WriteMetricsKeys(p, rows, a + b, false, true, |p.metrics|);
    WriteMetricsKeys(p, map[], b + a, false, true, |p.metrics|);
    AllIds(p);
  }

  lemma {:induction false} AllLandedSplit(p: Plan, lo: nat, hi: nat)
    requires lo <= hi <= |p.cases|
    ensures AllLanded(p, 0, hi) == AllLanded(p, 0, lo) + AllLanded(p, lo, hi)
    decreases hi
  {
    if lo < hi {
      hide LandedOf, Samples;
      AllLandedSplit(p, lo, hi - 1);
      LandedAssoc(AllLanded(p, 0, lo), AllLanded(p, lo, hi - 1), LandedOf(Samples(p, p.cases[hi - 1], 0, p.repeats)));
    } else {
      assert AllLanded(p, 0, lo) + [] == AllLanded(p, 0, lo);
    }
  }

  lemma LandedAssoc(a: Landed, b: Landed, c: Landed)
    ensures a + b + c == a + (b + c)
  {
  }

  // ---- Finalizing re-scores the cases of earlier sessions ---------------------------------------

  lemma RescoreBefore(p: Plan, earlier: seq<AttemptRow>, rows: seq<AttemptRow>, c: CaseId)
    requires RescoreCase(p, earlier, c).Some? && forall r | r in rows :: r.key.caseId != c
    ensures RescoreCase(p, earlier + rows, c) == RescoreCase(p, earlier, c)
  {
    hide RescoreCase;
    RescoreSkips(p, rows, c);
    RescoreConcat(p, earlier, rows, c);
    assert RescoreCase(p, earlier, c).value + [] == RescoreCase(p, earlier, c).value;
  }

  lemma RescoreAfter(p: Plan, earlier: seq<AttemptRow>, rows: seq<AttemptRow>, c: CaseId)
    requires RescoreCase(p, rows, c).Some? && forall r | r in earlier :: r.key.caseId != c
    ensures RescoreCase(p, earlier + rows, c) == RescoreCase(p, rows, c)
  {
    hide RescoreCase;
    RescoreSkips(p, earlier, c);
    RescoreConcat(p, earlier, rows, c);
    assert [] + RescoreCase(p, rows, c).value == RescoreCase(p, rows, c).value;
  }

  lemma CaseRescores(p: Plan, c: CaseId)
    requires Repeatable(p) && c in p.cases
    ensures RescoreCase(p, CaseRows(p, c), c) == Some(LandedOf(Samples(p, c, 0, p.repeats)))
  {
    hide RescoreCase, CaseBatch, LandedOf, Samples;
    RescoringIsLive(p, c, 0, p.repeats);
  }

  lemma {:induction false} RescoreFinished(p: Plan, n: nat, j: nat)
    requires Repeatable(p) && j < n <= |p.cases|
    ensures RescoreCase(p, AllRows(p, n), p.cases[j]) == Some(LandedOf(Samples(p, p.cases[j], 0, p.repeats)))
  {
    hide RescoreCase, CaseRows, Samples, LandedOf;
    var c, last := p.cases[j], p.cases[n - 1];
    AllRowsStep(p, n - 1);
    CaseRowsClosed(p, last);
    if j < n - 1 {
      assert c != last;
      RescoreFinished(p, n - 1, j);
      RescoreBefore(p, AllRows(p, n - 1), CaseRows(p, last), c);
    } else {
      AllRowsClosed(p, n - 1);
      CaseRescores(p, c);
      RescoreAfter(p, AllRows(p, n - 1), CaseRows(p, last), c);
    }
  }

  lemma RescoreRestStep(p: Plan, attempts: seq<AttemptRow>, executed: set<CaseId>, i: nat)
    requires 0 < i <= |p.cases| && p.cases[i - 1] !in executed
    requires RescoreRest(p, attempts, executed, i - 1).Some? && RescoreCase(p, attempts, p.cases[i - 1]).Some?
    ensures RescoreRest(p, attempts, executed, i)
         == Some(RescoreRest(p, attempts, executed, i - 1).value + RescoreCase(p, attempts, p.cases[i - 1]).value)
  {
    hide RescoreCase;
  }

  lemma AllLandedStep(p: Plan, i: nat)
    requires 0 < i <= |p.cases|
    ensures AllLanded(p, 0, i) == AllLanded(p, 0, i - 1) + LandedOf(Samples(p, p.cases[i - 1], 0, p.repeats))
  {
    hide LandedOf, Samples;
  }

  /** The cases of earlier sessions are re-scored; those of this session, from the lo-th on, are not. */
  lemma {:induction false} RescoreEarlier(p: Plan, lo: nat, i: nat)
    requires Repeatable(p) && i <= lo <= |p.cases|
    ensures RescoreRest(p, AllRows(p, |p.cases|), Executed(p, lo, |p.cases|), i) == Some(AllLanded(p, 0, i))
  {
    if i > 0 {
      ExecutedAre(p, lo, i - 1);
      hide AllRows, LandedOf, Samples, RescoreCase, Executed, RescoreRest, AllLanded, Repeatable;
      RescoreEarlier(p, lo, i - 1);
      RescoreFinished(p, |p.cases|, i - 1);
      RescoreRestStep(p, AllRows(p, |p.cases|), Executed(p, lo, |p.cases|), i);
      AllLandedStep(p, i);
    }
  }

  lemma {:induction false} RescoreRestIs(p: Plan, lo: nat, i: nat)
    requires Repeatable(p) && lo <= i <= |p.cases|
    ensures RescoreRest(p, AllRows(p, |p.cases|), Executed(p, lo, |p.cases|), i) == Some(AllLanded(p, 0, lo))
  {
    hide AllRows, AllLanded, RescoreCase, Executed;
    if i == lo {
      RescoreEarlier(p, lo, i);
    } else {
      RescoreRestIs(p, lo, i - 1);
      ExecutedAre(p, lo, i - 1);
    }
  }

  lemma ExecutedAre(p: Plan, lo: nat, i: nat)
    requires ValidPlan(p) && i < |p.cases| && lo <= |p.cases|
    ensures p.cases[i] in Executed(p, lo, |p.cases|) <==> i >= lo
  {
  }

  // ---- Resume equivalence -----------------------------------------------------------------------

  lemma FinishedIsIdeal(p: Plan, lo: nat, d: Db)
    requires Repeatable(p) && lo <= |p.cases| && Ready(p, d, |p.cases|)
    ensures Finalize(p, LoopEnd(Finished, d, Executed(p, lo, |p.cases|), AllLanded(p, lo, |p.cases|)))
         == Session(WasCompleted, Ideal(p))
  {
    var n := |p.cases|;
    RescoreRestIs(p, lo, n);
    AllLandedSplit(p, lo, n);
    SameMetricRows(p, d.metrics, AllLanded(p, lo, n), AllLanded(p, 0, lo));
    hide AllRows, AllLanded, RescoreRest, WriteMetrics, FinishedRow, Repeatable, Executed;
    var ideal := map c | c in p.cases :: FinishedRow(p, c);
    forall c | c in p.cases ensures d.cases[c] == ideal[c] {
      var j :| 0 <= j < n && p.cases[j] == c;
    }
    assert d.cases == ideal;
  }

  lemma CancelIs(p: Plan, l: LoopEnd)
    requires l.db.run.Running?
    ensures Cancel(p, l) == Session(WasCancelled, Db(RunState.Cancelled, map c | c in l.db.cases :: CloseCase(l.db.cases[c]),
              l.db.attempts, WriteMetrics(p, l.db.metrics, l.landed, false, false, |p.metrics|)))
  {
    hide WriteMetrics, CloseCase;
  }

  lemma ClosedCases(p: Plan, d: Db, n: nat)
    requires Repeatable(p) && Ready(p, d, n)
    ensures var cases := map c | c in d.cases :: CloseCase(d.cases[c]);
            && (forall j | 0 <= j < n :: p.cases[j] in cases && cases[p.cases[j]] == FinishedRow(p, p.cases[j]))
            && (forall j | n <= j < |p.cases| :: p.cases[j] in cases && cases[p.cases[j]] == SET_ASIDE)
  {
    ReadyRows(p, d, n);
    hide AllRows, FinishedRow, MetricIds, Repeatable;
  }

  lemma CancelPauses(p: Plan, n: nat, l: LoopEnd)
    requires Repeatable(p) && Ready(p, l.db, n)
    ensures Cancel(p, l).ending.WasCancelled? && Paused(p, Cancel(p, l).db, n)
  {
    WriteMetricsKeys(p, l.db.metrics, l.landed, false, false, |p.metrics|);
    AllIds(p);
    ClosedCases(p, l.db, n);
    CancelIs(p, l);
    hide WriteMetrics, AllRows, FinishedRow, MetricIds, IdsBefore, Repeatable, Cancel, CloseCase;
  }

  lemma SessionCases(p: Plan, d: Db, cancel: nat -> bool)
    requires DbInv(p, d) && !d.run.Complete? && !d.run.Failed? && forall c | c in p.cases :: c in Start(d).cases
    ensures var l := Loop(p, Start(d), 0, {}, [], cancel);
            && (l.how.Finished? ==> RunSession(p, d, cancel) == Finalize(p, l))
            && (l.how.Stopped? ==> RunSession(p, d, cancel) == Cancel(p, l))
  {
    hide Loop, Finalize, Cancel, Start;
  }

  /** A session resuming a paused run either pauses it further on or completes it into the ideal tables. */
  lemma SessionResumes(p: Plan, d: Db, k: nat, cancel: nat -> bool) returns (n: nat)
    requires Repeatable(p) && DbInv(p, d) && Paused(p, d, k)
    ensures var s := RunSession(p, d, cancel);
            && (s == Session(WasCompleted, Ideal(p)) || (s.ending.WasCancelled? && k <= n && Paused(p, s.db, n)))
            && (Undisturbed(cancel) ==> s == Session(WasCompleted, Ideal(p)))
  {
    var e := Start(d);
    StartIsReady(p, d, k);
    ReadyRows(p, e, k);
    LoopSkips(p, e, 0, k, cancel);
    assert Executed(p, k, k) == {} && AllLanded(p, k, k) == [];
    n := LoopRuns(p, e, k, k, cancel);
    var l := Loop(p, e, 0, {}, [], cancel);
    SessionCases(p, d, cancel);
    hide RunSession, Loop, Finalize, Cancel, Start, Executed, AllLanded, Ready, Repeatable, Ideal, Progress, DbInv;
    if l == LoopEnd(Stopped, e, {}, []) && exists j :: cancel(j) {
      n := k;
      CancelPauses(p, k, l);
    } else if l.how.Stopped? {
      CancelPauses(p, n, l);
    } else {
      FinishedIsIdeal(p, k, l.db);
    }
  }

  /** The tables after a series of sessions, each with its own answers to the cancellation poll. */
  ghost function After(p: Plan, d: Db, cancels: seq<nat -> bool>): Db
    requires DbInv(p, d)
    decreases |cancels|
  {
    if cancels == [] then d
    else
      SessionCloses(p, d, cancels[0]);
      After(p, RunSession(p, d, cancels[0]).db, cancels[1..])
  }

  lemma {:induction false} AfterStaysIdeal(p: Plan, cancels: seq<nat -> bool>)
    requires DbInv(p, Ideal(p))
    ensures After(p, Ideal(p), cancels) == Ideal(p)
    decreases |cancels|
  {
    hide Ideal, DbInv, Start, Loop;
    assert Ideal(p).run.Complete? by { IdealIsComplete(p); }
    if cancels != [] {
      AfterStaysIdeal(p, cancels[1..]);
    }
  }

  lemma IdealIsComplete(p: Plan)
    ensures Ideal(p).run.Complete?
  {
  }

  lemma {:induction false} ResumesToIdeal(p: Plan, d: Db, k: nat, cancels: seq<nat -> bool>)
    requires Repeatable(p) && DbInv(p, d) && Paused(p, d, k)
    requires cancels != [] && Undisturbed(cancels[|cancels| - 1])
    ensures After(p, d, cancels) == Ideal(p)
    decreases |cancels|
  {
    hide RunSession, Ideal, DbInv, Paused, Repeatable;
    SessionCloses(p, d, cancels[0]);
    var n := SessionResumes(p, d, k, cancels[0]);
    var s := RunSession(p, d, cancels[0]);
    if s == Session(WasCompleted, Ideal(p)) {
      AfterStaysIdeal(p, cancels[1..]);
    } else {
      assert |cancels| > 1;
      ResumesToIdeal(p, s.db, n, cancels[1..]);
    }
  }

  lemma FreshIsPaused(p: Plan)
    ensures DbInv(p, Fresh(p)) && Paused(p, Fresh(p), 0)
  {
  }

  /**
   Resume equivalence: however often a run is cancelled at case boundaries and resumed, once a
   session runs undisturbed the tables are those of one uninterrupted session.
  */
  lemma ResumeEquivalence(p: Plan, cancels: seq<nat -> bool>, never: nat -> bool)
    requires Repeatable(p) && Undisturbed(never)
    ensures DbInv(p, Fresh(p))
    ensures After(p, Fresh(p), cancels + [never]) == RunSession(p, Fresh(p), never).db
  {
    FreshIsPaused(p);
    ResumesToIdeal(p, Fresh(p), 0, cancels + [never]);
    var n := SessionResumes(p, Fresh(p), 0, never);
  }
}
