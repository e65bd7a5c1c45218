/** What one crash-free session guarantees from any state a crash can leave behind. */
module SessionClosure {
  import opened Wrappers
  import opened Lifecycle
  import opened Scoring
  import opened Aggregation
  import opened Sessions

  // ---- Attempt keys ----------------------------------------------------------------------------

  predicate KeyLess(a: AttemptKey, b: AttemptKey) {
    a.rep < b.rep || (a.rep == b.rep && a.attempt < b.attempt)
  }

  /** Closed rows of one case, in key order, each retry right after the attempt it retries. */
  ghost predicate InOrder(rows: seq<AttemptRow>, c: CaseId, lo: nat, hi: nat) {
    Belong(rows, c, lo, hi) && Chained(rows) && Ascending(rows)
  }

  ghost predicate Belong(rows: seq<AttemptRow>, c: CaseId, lo: nat, hi: nat) {
    forall r | r in rows :: r.key.caseId == c && lo <= r.key.rep < hi && AttemptClosed(r.status)
  }

  ghost predicate Chained(rows: seq<AttemptRow>) {
    forall i | 0 <= i < |rows| && rows[i].key.attempt > 0 :: i > 0 && rows[i - 1].key == Before(rows[i].key)
  }

  ghost predicate Ascending(rows: seq<AttemptRow>) {
    forall i, j | 0 <= i < j < |rows| :: KeyLess(rows[i].key, rows[j].key)
  }

  /** The first attempt of each repeat from lo to hi is there. */
  ghost predicate HasFirsts(rows: seq<AttemptRow>, c: CaseId, lo: nat, hi: nat) {
    forall rep: nat | lo <= rep < hi :: exists i | 0 <= i < |rows| :: rows[i].key == AttemptKey(c, rep, 0)
  }

  /** Closed rows of one repeat, with attempt numbers a, a + 1, ... */
  ghost predicate Numbered(rows: seq<AttemptRow>, c: CaseId, rep: nat, a: nat) {
    forall i | 0 <= i < |rows| :: rows[i].key == AttemptKey(c, rep, a + i) && AttemptClosed(rows[i].status)
  }

  lemma NumberedPrepend(row: AttemptRow, rows: seq<AttemptRow>, c: CaseId, rep: nat, a: nat)
    requires Numbered(rows, c, rep, a + 1) && row.key == AttemptKey(c, rep, a) && AttemptClosed(row.status)
    ensures Numbered([row] + rows, c, rep, a)
  {
  }

  lemma {:induction false} RetriesAreNumbered(p: Plan, c: CaseId, rep: nat, a: nat)
    ensures Numbered(RetryBatch(p, c, rep, a).rows, c, rep, a)
    decreases p.retryMax + 1 - a
  {
    if a <= p.retryMax {
      RetriesAreNumbered(p, c, rep, a + 1);
      NumberedPrepend(FinalRow(p, AttemptKey(c, rep, a)), RetryBatch(p, c, rep, a + 1).rows, c, rep, a);
    }
  }

  lemma RepeatIsNumbered(p: Plan, c: CaseId, rep: nat)
    ensures RepeatBatch(p, c, rep).rows != [] && Numbered(RepeatBatch(p, c, rep).rows, c, rep, 0)
  {
    RetriesAreNumbered(p, c, rep, 1);
    NumberedPrepend(FinalRow(p, AttemptKey(c, rep, 0)), RetryBatch(p, c, rep, 1).rows, c, rep, 0);
  }

  lemma ChainedFollows(xs: seq<AttemptRow>, ys: seq<AttemptRow>)
    requires Chained(xs) && Chained(ys)
    ensures Chained(xs + ys)
  {
    var rows := xs + ys;
    forall i | 0 <= i < |rows| && rows[i].key.attempt > 0
      ensures i > 0 && rows[i - 1].key == Before(rows[i].key)
    {
      if i >= |xs| {
        var j := i - |xs|;
        assert ys[j].key.attempt > 0;
        assert rows[i - 1] == ys[j - 1];
      }
    }
  }

  lemma AscendingFollows(xs: seq<AttemptRow>, ys: seq<AttemptRow>, c: CaseId, lo: nat, mid: nat, hi: nat)
    requires Ascending(xs) && Ascending(ys) && Belong(xs, c, lo, mid) && Belong(ys, c, mid, hi)
    ensures Ascending(xs + ys)
  {
    var rows := xs + ys;
    forall i, j | 0 <= i < j < |rows| ensures KeyLess(rows[i].key, rows[j].key) {
      assert rows[i] == if i < |xs| then xs[i] else ys[i - |xs|];
      assert rows[j] == if j < |xs| then xs[j] else ys[j - |xs|];
    }
  }

  lemma InOrderFollows(xs: seq<AttemptRow>, ys: seq<AttemptRow>, c: CaseId, lo: nat, mid: nat, hi: nat)
    requires InOrder(xs, c, lo, mid) && InOrder(ys, c, mid, hi) && lo <= mid <= hi
    ensures InOrder(xs + ys, c, lo, hi)
  {
    hide Chained, Ascending;
    ChainedFollows(xs, ys);
    AscendingFollows(xs, ys, c, lo, mid, hi);
  }

  lemma HasFirstsFollows(xs: seq<AttemptRow>, ys: seq<AttemptRow>, c: CaseId, lo: nat, hi: nat)
    requires xs != [] && xs[0].key == AttemptKey(c, lo, 0) && HasFirsts(ys, c, lo + 1, hi)
    ensures HasFirsts(xs + ys, c, lo, hi)
  {
    forall rep: nat | lo <= rep < hi ensures exists i | 0 <= i < |xs + ys| :: (xs + ys)[i].key == AttemptKey(c, rep, 0) {
      if rep == lo {
        assert (xs + ys)[0] == xs[0];
      } else {
        var i :| 0 <= i < |ys| && ys[i].key == AttemptKey(c, rep, 0);
        assert (xs + ys)[|xs| + i] == ys[i];
      }
    }
  }

  lemma RepeatIsInOrder(p: Plan, c: CaseId, rep: nat)
    ensures InOrder(RepeatBatch(p, c, rep).rows, c, rep, rep + 1)
  {
    hide RepeatBatch;
    RepeatIsNumbered(p, c, rep);
  }

  /** A fresh execution numbers its attempts without gaps. */
  lemma {:induction false} CaseBatchIsInOrder(p: Plan, c: CaseId, first: nat, last: nat)
    requires first <= last
    ensures var b := CaseBatch(p, c, first, last);
            InOrder(b.rows, c, first, last) && (!b.raised ==> HasFirsts(b.rows, c, first, last))
    decreases last - first
  {
    if first < last {
      hide RepeatBatch;
      var b, rest := RepeatBatch(p, c, first), CaseBatch(p, c, first + 1, last);
      RepeatIsNumbered(p, c, first);
      RepeatIsInOrder(p, c, first);
      CaseBatchIsInOrder(p, c, first + 1, last);
      InOrderFollows(b.rows, rest.rows, c, first, first + 1, last);
      if !b.raised && !rest.raised {
        HasFirstsFollows(b.rows, rest.rows, c, first, last);
      }
    }
  }

  lemma FreshKeys(stored: seq<AttemptRow>, added: seq<AttemptRow>, c: CaseId, hi: nat)
    requires KeysDistinct(stored) && InOrder(added, c, NextRepeat(stored, c), hi)
    ensures KeysDistinct(stored + added)
  {
    var rows := stored + added;
    forall i, j | 0 <= i < j < |rows| ensures rows[i].key != rows[j].key {
      if i < |stored| <= j {
        assert rows[i] in stored && rows[j] == added[j - |stored|];
      } else if |stored| <= i {
        assert rows[i] == added[i - |stored|] && rows[j] == added[j - |stored|];
      }
    }
  }

  lemma FreshRetries(stored: seq<AttemptRow>, added: seq<AttemptRow>, c: CaseId, lo: nat, hi: nat)
    requires RetriesFollow(stored) && InOrder(added, c, lo, hi)
    ensures RetriesFollow(stored + added)
  {
    var rows := stored + added;
    forall i | 0 <= i < |rows| && rows[i].key.attempt > 0
      ensures exists k | 0 <= k < i :: rows[k].key == Before(rows[i].key)
    {
      if i < |stored| {
        var k :| 0 <= k < i && stored[k].key == Before(stored[i].key);
        assert rows[k] == stored[k];
      } else {
        var j := i - |stored|;
        assert added[j].key.attempt > 0;
        assert rows[i - 1] == added[j - 1];
      }
    }
  }

  /** What executing a case does to the tables. */
  lemma RunCaseAdds(p: Plan, d: Db, c: CaseId)
    requires c in d.cases
    ensures var e, first := RunCase(p, d, c).db, NextRepeat(d.attempts, c);
            && e.run == d.run && e.cases.Keys == d.cases.Keys && e.metrics == d.metrics
            && e.attempts == d.attempts + CaseBatch(p, c, first, first + p.repeats).rows
            && RunCase(p, d, c).raised == CaseBatch(p, c, first, first + p.repeats).raised
  {
    hide CaseBatch, Samples, CaseAfter, NextRepeat;
  }

  lemma RunCaseKeepsInv(p: Plan, d: Db, c: CaseId)
    requires DbInv(p, d) && c in d.cases
    ensures DbInv(p, RunCase(p, d, c).db)
  {
    var first := NextRepeat(d.attempts, c);
    hide RunCase, CaseBatch, InOrder, HasFirsts, KeysDistinct, RetriesFollow, NextRepeat;
    var rows := CaseBatch(p, c, first, first + p.repeats).rows;
    RunCaseAdds(p, d, c);
    CaseBatchIsInOrder(p, c, first, first + p.repeats);
    FreshKeys(d.attempts, rows, c, first + p.repeats);
    FreshRetries(d.attempts, rows, c, first, first + p.repeats);
  }

  lemma NextRepeatIsAbove(attempts: seq<AttemptRow>, c: CaseId)
    ensures forall a | a in attempts && a.key.caseId == c :: a.key.rep < NextRepeat(attempts, c)
  {
  }

  /** Attempt keys never collide, and a fresh execution takes a contiguous block of repeats above all earlier ones. */
  lemma AttemptKeysNeverCollide(p: Plan, d: Db, c: CaseId)
    requires DbInv(p, d) && c in d.cases
    ensures var r, first := RunCase(p, d, c), NextRepeat(d.attempts, c);
            && DbInv(p, r.db)
            && (forall a | a in d.attempts && a.key.caseId == c :: a.key.rep < first)
            && exists added :: r.db.attempts == d.attempts + added && InOrder(added, c, first, first + p.repeats)
                              && (!r.raised ==> HasFirsts(added, c, first, first + p.repeats))
  {
    hide RunCase, CaseBatch, InOrder, HasFirsts, NextRepeat, DbInv;
    var first := NextRepeat(d.attempts, c);
    NextRepeatIsAbove(d.attempts, c);
    RunCaseKeepsInv(p, d, c);
    CaseBatchIsInOrder(p, c, first, first + p.repeats);
    RunCaseAdds(p, d, c);
    var added := CaseBatch(p, c, first, first + p.repeats).rows;
    assert RunCase(p, d, c).db.attempts == d.attempts + added;
  }

  // ---- Closure ---------------------------------------------------------------------------------

  ghost predicate AttemptsClosed(rows: seq<AttemptRow>) { forall r | r in rows :: AttemptClosed(r.status) }

  ghost predicate CasesClosed(d: Db) { forall c | c in d.cases :: CaseClosed(d.cases[c].status) }

  /** While the loop runs no case is running and no attempt is open. */
  ghost predicate Settled(d: Db) {
    AttemptsClosed(d.attempts) && forall c | c in d.cases :: !d.cases[c].status.Running?
  }

  lemma OrphansKeepKeys(rows: seq<AttemptRow>)
    ensures KeysDistinct(rows) ==> KeysDistinct(OrphanAll(rows))
    ensures RetriesFollow(rows) ==> RetriesFollow(OrphanAll(rows))
    ensures AttemptsClosed(OrphanAll(rows))
  {
    var orphaned := OrphanAll(rows);
    assert forall i | 0 <= i < |rows| :: orphaned[i].key == rows[i].key;
    if RetriesFollow(rows) {
      forall i | 0 <= i < |rows| && orphaned[i].key.attempt > 0
        ensures exists k | 0 <= k < i :: orphaned[k].key == Before(orphaned[i].key)
      {
        var k :| 0 <= k < i && rows[k].key == Before(rows[i].key);
        assert orphaned[k].key == Before(orphaned[i].key);
      }
    }
  }

  lemma StartSettles(p: Plan, d: Db)
    requires DbInv(p, d)
    ensures DbInv(p, Start(d)) && Settled(Start(d))
    ensures Start(d).run == if d.run.Aggregating? then d.run else RunState.Running
  {
    OrphansKeepKeys(d.attempts);
    hide KeysDistinct, RetriesFollow, OrphanAll, AttemptsClosed;
  }

  /** One score per metric, in their order, each under its metric's id. */
  ghost predicate ScoresMatch(metrics: seq<Metric>, v: seq<CaseScore>, retry: bool) {
    |v| == |metrics| && forall i | 0 <= i < |v| :: v[i].metric == metrics[i].id && v[i].onRetryOverride == retry
  }

  lemma {:induction false} ScoreAllMatches(metrics: seq<Metric>, scorer: Scorer, c: CaseId, trace: Trace, retry: bool)
    ensures var v := ScoreAll(metrics, scorer, c, trace, retry); v.Some? ==> ScoresMatch(metrics, v.value, retry)
  {
    if metrics != [] {
      ScoreAllMatches(metrics[..|metrics| - 1], scorer, c, trace, retry);
    }
  }

  function IdsBefore(p: Plan, i: nat): set<string>
    requires i <= |p.metrics|
  {
    if i == 0 then {} else IdsBefore(p, i - 1) + {p.metrics[i - 1].id}
  }

  lemma {:induction false} WriteMetricsKeys(p: Plan, rows: map<string, MetricRow>, landed: Landed,
      inProgress: bool, final: bool, i: nat)
    requires i <= |p.metrics|
    ensures WriteMetrics(p, rows, landed, inProgress, final, i).Keys == rows.Keys + IdsBefore(p, i)
  {
    if i > 0 {
      hide MetricRowFor;
      WriteMetricsKeys(p, rows, landed, inProgress, final, i - 1);
    }
  }

  lemma {:induction false} IdsBeforeAre(p: Plan, i: nat)
    requires i <= |p.metrics|
    ensures forall id :: id in IdsBefore(p, i) <==> exists j | 0 <= j < i :: p.metrics[j].id == id
  {
    if i > 0 {
      IdsBeforeAre(p, i - 1);
    }
  }

  lemma AllIds(p: Plan)
    ensures IdsBefore(p, |p.metrics|) == MetricIds(p)
  {
    IdsBeforeAre(p, |p.metrics|);
    forall id | id in MetricIds(p) ensures id in IdsBefore(p, |p.metrics|) {
      var m :| m in p.metrics && m.id == id;
      var j :| 0 <= j < |p.metrics| && p.metrics[j] == m;
    }
    forall id | id in IdsBefore(p, |p.metrics|) ensures id in MetricIds(p) {
      var j :| 0 <= j < |p.metrics| && p.metrics[j].id == id;
      assert p.metrics[j] in p.metrics;
    }
  }

  lemma StreamedKeeps(p: Plan, d: Db, landed: Landed, inProgress: bool, final: bool)
    requires DbInv(p, d)
    ensures var e := Streamed(p, d, landed, inProgress, final);
            && DbInv(p, e) && e.metrics.Keys == MetricIds(p)
            && e.cases == d.cases && e.attempts == d.attempts && e.run == d.run
  {
    hide WriteMetrics, KeysDistinct, RetriesFollow, MetricIds, IdsBefore;
    WriteMetricsKeys(p, d.metrics, landed, inProgress, final, |p.metrics|);
    AllIds(p);
  }

  /** Executing a case settles it and touches no other case. */
  lemma RunCaseSettles(p: Plan, d: Db, c: CaseId)
    requires DbInv(p, d) && Settled(d) && c in d.cases
    ensures var r := RunCase(p, d, c);
            && AttemptsClosed(r.db.attempts) && r.db.run == d.run && r.db.metrics == d.metrics
            && r.db.cases == d.cases[c := r.db.cases[c]]
            && (!r.raised ==> Settled(r.db) && CaseClosed(r.db.cases[c].status)
                              && (r.db.cases[c].status.Cancelled? <==> SomeCancelled(r.samples)))
  {
    hide CaseBatch, Samples, NextRepeat, InOrder, HasFirsts, DbInv;
    var first := NextRepeat(d.attempts, c);
    var batch := CaseBatch(p, c, first, first + p.repeats);
    BatchIsClosed(p, c, first, first + p.repeats);
    assert RunCase(p, d, c).db.attempts == d.attempts + batch.rows;
  }

  lemma BatchIsClosed(p: Plan, c: CaseId, first: nat, last: nat)
    requires first <= last
    ensures AttemptsClosed(CaseBatch(p, c, first, last).rows)
  {
    hide CaseBatch;
    CaseBatchIsInOrder(p, c, first, last);
  }

  /** What the loop leaves behind, however it ends. */
  ghost predicate LoopKept(p: Plan, d: Db, i: nat, l: LoopEnd) {
    && DbInv(p, l.db) && l.db.run == d.run && AttemptsClosed(l.db.attempts) && l.db.cases.Keys == d.cases.Keys
    && (!l.how.Raised? ==> Settled(l.db))
    && (l.how.Finished? ==> forall j | i <= j < |p.cases| :: CaseClosed(l.db.cases[p.cases[j]].status))
    && (forall c | c in d.cases && CaseClosed(d.cases[c].status) :: l.db.cases[c] == d.cases[c])
    && (l.how.Finished? ==> forall c | c in d.cases && l.db.cases[c].status.Cancelled? :: d.cases[c].status.Cancelled?)
  }

  /** Executing the i-th case and then keeping the rest keeps everything. */
  lemma KeptStep(p: Plan, d: Db, e: Db, i: nat, l: LoopEnd)
    requires i < |p.cases| && p.cases[i] in d.cases && !CaseClosed(d.cases[p.cases[i]].status)
    requires p.cases[i] in e.cases && e.run == d.run && e.cases == d.cases[p.cases[i] := e.cases[p.cases[i]]]
    requires CaseClosed(e.cases[p.cases[i]].status) && !e.cases[p.cases[i]].status.Cancelled?
    requires LoopKept(p, e, i + 1, l)
    ensures LoopKept(p, d, i, l)
  {
    hide DbInv, Settled, AttemptsClosed;
    var c := p.cases[i];
    assert l.db.cases[c] == e.cases[c];
  }

  /** The loop ends right after executing a case. */
  lemma KeptEnd(p: Plan, d: Db, i: nat, c: CaseId, l: LoopEnd)
    requires c in d.cases && !CaseClosed(d.cases[c].status) && !l.how.Finished?
    requires c in l.db.cases && l.db.run == d.run && l.db.cases == d.cases[c := l.db.cases[c]]
    requires DbInv(p, l.db) && AttemptsClosed(l.db.attempts) && (!l.how.Raised? ==> Settled(l.db))
    ensures LoopKept(p, d, i, l)
  {
    hide DbInv, Settled, AttemptsClosed;
  }

  lemma {:induction false} LoopKeeps(p: Plan, d: Db, i: nat, executed: set<CaseId>, landed: Landed, cancel: nat -> bool)
    requires DbInv(p, d) && Settled(d) && i <= |p.cases|
    ensures LoopKept(p, d, i, Loop(p, d, i, executed, landed, cancel))
    decreases |p.cases| - i
  {
    hide RunCase, Streamed, LandedOf, SomeCancelled, KeysDistinct, RetriesFollow;
    if i < |p.cases| && !cancel(i) {
      assert p.cases[i] in p.cases;
      if CaseClosed(d.cases[p.cases[i]].status) {
        LoopKeeps(p, d, i + 1, executed, landed, cancel);
      } else {
        LoopKeepsRunning(p, d, i, executed, landed, cancel);
      }
    }
  }

  lemma {:induction false} LoopKeepsRunning(p: Plan, d: Db, i: nat, executed: set<CaseId>, landed: Landed, cancel: nat -> bool)
    requires DbInv(p, d) && Settled(d) && i < |p.cases| && !cancel(i)
    requires p.cases[i] in d.cases && !CaseClosed(d.cases[p.cases[i]].status)
    ensures LoopKept(p, d, i, Loop(p, d, i, executed, landed, cancel))
    decreases |p.cases| - i, 0
  {
    assert forall x | x in p.cases :: x in d.cases;
    hide RunCase, Streamed, DbInv, SomeCancelled, LandedOf, LoopKept, Settled, AttemptsClosed;
    var c := p.cases[i];
    var r := RunCase(p, d, c);
    RunCaseSettles(p, d, c);
    RunCaseKeepsInv(p, d, c);
    var l := Loop(p, d, i, executed, landed, cancel);
    if r.raised {
      KeptEnd(p, d, i, c, l);
    } else {
      var landed' := landed + LandedOf(r.samples);
      var e := Streamed(p, r.db, landed', true, false);
      StreamedKeeps(p, r.db, landed', true, false);
      SettledTransfers(r.db, e);
      if SomeCancelled(r.samples) {
        KeptEnd(p, d, i, c, l);
      } else {
        LoopKeeps(p, e, i + 1, executed + {c}, landed', cancel);
        KeptStep(p, d, e, i, l);
      }
    }
  }

  lemma SettledTransfers(d: Db, e: Db)
    requires Settled(d) && e.cases == d.cases && e.attempts == d.attempts
    ensures Settled(e) && AttemptsClosed(e.attempts)
  {
  }

  ghost predicate Closed(p: Plan, d: Db) {
    CasesClosed(d) && AttemptsClosed(d.attempts) && d.metrics.Keys == MetricIds(p)
  }

  lemma CancelCloses(p: Plan, l: LoopEnd)
    requires DbInv(p, l.db) && Settled(l.db)
    ensures DbInv(p, Cancel(p, l).db) && Closed(p, Cancel(p, l).db)
  {
    hide Streamed, KeysDistinct, RetriesFollow;
    var closed := l.db.(cases := map c | c in l.db.cases :: CloseCase(l.db.cases[c]));
    StreamedKeeps(p, closed, l.landed, false, false);
  }

  lemma FinalizeCloses(p: Plan, l: LoopEnd)
    requires DbInv(p, l.db) && AttemptsClosed(l.db.attempts) && CasesClosed(l.db)
    ensures DbInv(p, Finalize(p, l).db) && (Finalize(p, l).ending.WasCompleted? ==> Closed(p, Finalize(p, l).db))
  {
    hide Streamed, KeysDistinct, RetriesFollow, RescoreRest;
    var more := RescoreRest(p, l.db.attempts, l.executed, |p.cases|);
    if more.Some? {
      StreamedKeeps(p, l.db, l.landed + more.value, false, true);
    }
  }

  lemma AllCasesReached(p: Plan, d: Db)
    requires DbInv(p, d) && forall j | 0 <= j < |p.cases| :: CaseClosed(d.cases[p.cases[j]].status)
    ensures CasesClosed(d)
  {
    forall c | c in d.cases ensures CaseClosed(d.cases[c].status) {
      var j :| 0 <= j < |p.cases| && p.cases[j] == c;
    }
  }

  /** The status a session's end puts the run in. */
  ghost predicate Landing(p: Plan, d: Db, s: Session) {
    match s.ending
    case WasRefused => s.db == d
    case WasCompleted => s.db.run.Complete? && Closed(p, s.db)
    case WasCancelled => s.db.run.Cancelled? && Closed(p, s.db)
    case HadError => s.db.run.Incomplete? && AttemptsClosed(s.db.attempts)
  }

  /**
   From every state of the tables that the invariant allows, one crash-free session refuses
   exactly the complete and failed runs, and otherwise lands the run: complete or cancelled
   with every case and attempt closed and every metric written, or incomplete after an error.
  */
  lemma SessionCloses(p: Plan, d: Db, cancel: nat -> bool)
    requires DbInv(p, d)
    ensures var s := RunSession(p, d, cancel);
            DbInv(p, s.db) && Landing(p, d, s) && (s.ending.WasRefused? <==> d.run.Complete? || d.run.Failed?)
  {
    hide Loop, Start, Cancel, Finalize, DbInv, Settled, Closed, CasesClosed, AttemptsClosed, RunLegal;
    SessionIs(p, d, cancel);
    hide RunSession;
    if !(d.run.Complete? || d.run.Failed?) {
      StartSettles(p, d);
      var l := Loop(p, Start(d), 0, {}, [], cancel);
      LoopKeeps(p, Start(d), 0, {}, [], cancel);
      SessionLands(p, l);
      match l.how
      case Finished => AllCasesReached(p, l.db); FinalizeCloses(p, l);
      case Stopped => CancelCloses(p, l);
      case Raised => StatusChangeKeepsInv(p, l.db, RunState.Incomplete);
    }
  }

  /** A session as a case distinction on how its loop ends. */
  lemma SessionIs(p: Plan, d: Db, cancel: nat -> bool)
    requires DbInv(p, d)
    ensures forall c | c in p.cases :: c in Start(d).cases
    ensures RunSession(p, d, cancel) ==
              if d.run.Complete? || d.run.Failed? then Session(WasRefused, d)
              else
                var l := Loop(p, Start(d), 0, {}, [], cancel);
                match l.how {
                  case Finished => Finalize(p, l)
                  case Stopped => Cancel(p, l)
                  case Raised => Session(HadError, l.db.(run := RunState.Incomplete))
                }
  {
    hide Loop, Finalize, Cancel, OrphanAll, KeysDistinct, RetriesFollow, MetricIds;
  }

  lemma StatusChangeKeepsInv(p: Plan, d: Db, run: RunState)
    requires DbInv(p, d)
    ensures DbInv(p, d.(run := run))
  {
  }

  lemma SessionLands(p: Plan, l: LoopEnd)
    ensures var s := Cancel(p, l);
            && s.db.attempts == l.db.attempts
            && (if RunLegal(l.db.run, RunState.Cancelled) then s.ending.WasCancelled? && s.db.run.Cancelled?
                else s.ending.HadError? && s.db.run.Incomplete?)
    ensures var s := Finalize(p, l);
            && s.db.attempts == l.db.attempts && s.db.cases == l.db.cases
            && (if s.ending.WasCompleted? then s.db.run.Complete? else s.ending.HadError? && s.db.run.Incomplete?)
  {
    hide WriteMetrics, RescoreRest;
  }
}
