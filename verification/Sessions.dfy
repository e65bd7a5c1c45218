/**
 One run of an evaluation as tables and functions: what a session of the engine makes of
 the stored run, cases, attempts and metric rows. The agent, the scorers and the polled
 cancellation signal are parameters; an attempt key is never used twice, so a function of
 the key is as general as an arbitrary agent.
*/
module Sessions {
  import opened Wrappers
  import opened Lifecycle
  import opened Scoring
  import opened Aggregation

  type CaseId = string

  datatype AttemptKey = AttemptKey(caseId: CaseId, rep: nat, attempt: nat)

  datatype Trace = Trace(events: seq<string>)

  const NO_EVENTS: Trace := Trace([])

  datatype End = EndTimedOut | EndCancelled | EndErrored

  /** What invoking the agent comes to: an engine error, an attempt that ended early, or a trace to score. */
  datatype Outcome = Crashed | Ended(how: End, kept: Trace) | Done(trace: Trace)

  /** What an evaluator says of a trace; None where it raises. */
  datatype Verdict = Verdict(score: Option<real>, passed: bool, status: CaseStatus)

  type Scorer = (Metric, CaseId, Trace) -> Option<Verdict>

  datatype Plan = Plan(
    cases: seq<CaseId>, repeats: nat, retryMax: nat, metrics: seq<Metric>,
    agent: AttemptKey -> Outcome, live: Scorer, rescore: Scorer)

  /** What creating a run checks: at least one repeat, and no identifier twice. */
  ghost predicate ValidPlan(p: Plan) {
    && p.repeats >= 1
    && (forall i, j | 0 <= i < j < |p.cases| :: p.cases[i] != p.cases[j])
    && (forall i, j | 0 <= i < j < |p.metrics| :: p.metrics[i].id != p.metrics[j].id)
  }

  datatype Classification = Passing | Failing | Flaky | AllErrored
  datatype Category = Infra | Agent | Evaluator

  datatype CaseRow = CaseRow(status: CaseState, classification: Option<Classification>, category: Option<Category>)
  datatype AttemptRow = AttemptRow(key: AttemptKey, status: AttemptState, trace: Trace)
  datatype MetricRow = MetricRow(aggregate: Option<Aggregate>, gate: Option<GateStatus>)

  datatype Db = Db(
    run: RunState, cases: map<CaseId, CaseRow>, attempts: seq<AttemptRow>, metrics: map<string, MetricRow>)

  function MetricIds(p: Plan): set<string> { set m | m in p.metrics :: m.id }

  function Before(key: AttemptKey): AttemptKey
    requires key.attempt > 0
  {
    key.(attempt := key.attempt - 1)
  }

  ghost predicate KeysDistinct(rows: seq<AttemptRow>) {
    forall i, j | 0 <= i < j < |rows| :: rows[i].key != rows[j].key
  }

  ghost predicate RetriesFollow(rows: seq<AttemptRow>) {
    forall i | 0 <= i < |rows| && rows[i].key.attempt > 0 :: exists k | 0 <= k < i :: rows[k].key == Before(rows[i].key)
  }

  /** What every state of the tables satisfies, crash or no crash. */
  ghost predicate DbInv(p: Plan, d: Db) {
    && (forall c :: c in d.cases <==> c in p.cases)
    && KeysDistinct(d.attempts) && RetriesFollow(d.attempts)
    && d.metrics.Keys <= MetricIds(p)
  }

  // ---- One attempt -----------------------------------------------------------------------------

  function EndStatus(how: End): AttemptState {
    match how
    case EndTimedOut => AttemptState.TimedOut
    case EndCancelled => AttemptState.Cancelled
    case EndErrored => AttemptState.Errored
  }

  function FinalRow(p: Plan, key: AttemptKey): AttemptRow {
    match p.agent(key)
    case Crashed => AttemptRow(key, AttemptState.Errored, NO_EVENTS)
    case Ended(how, kept) => AttemptRow(key, EndStatus(how), kept)
    case Done(trace) => AttemptRow(key, AttemptState.Completed, trace)
  }

  /** One score per metric, in the order of the metrics; None if any evaluator raises. */
  function ScoreAll(metrics: seq<Metric>, scorer: Scorer, c: CaseId, trace: Trace, retry: bool): Option<seq<CaseScore>> {
    if metrics == [] then Some([])
    else
      var front := ScoreAll(metrics[..|metrics| - 1], scorer, c, trace, retry);
      var m := metrics[|metrics| - 1];
      match (front, scorer(m, c, trace))
      case (Some(scores), Some(v)) => Some(scores + [CaseScore(m.id, c, v.score, v.passed, v.status, retry)])
      case _ => None
  }

  /** The scores of a finished attempt: none unless it completed, and None where the session raises. */
  function LiveScores(p: Plan, key: AttemptKey): Option<seq<CaseScore>> {
    match p.agent(key)
    case Crashed => None
    case Ended(_, _) => Some([])
    case Done(trace) => ScoreAll(p.metrics, p.live, key.caseId, trace, key.attempt > 0)
  }

  // ---- One case --------------------------------------------------------------------------------

  /** The attempts a stretch of work adds, and whether it ended in an exception. */
  datatype Batch = Batch(rows: seq<AttemptRow>, raised: bool)

  function Prepend(row: AttemptRow, b: Batch): Batch { Batch([row] + b.rows, b.raised) }
  function Follow(a: Batch, b: Batch): Batch { Batch(a.rows + b.rows, b.raised) }

  predicate AllPass(scores: seq<CaseScore>) { forall s | s in scores :: s.status.Pass? }
  predicate SomeFail(scores: seq<CaseScore>) { exists s | s in scores :: s.status.Fail? }
  predicate SomeError(scores: seq<CaseScore>) { exists s | s in scores :: s.status.Error? }

  /** Retries a, a+1, ... of one repeat, up to the first that passes everything. */
  function RetryBatch(p: Plan, c: CaseId, rep: nat, a: nat): Batch
    decreases p.retryMax + 1 - a
  {
    if a > p.retryMax then Batch([], false)
    else
      var key := AttemptKey(c, rep, a);
      var row, scores := FinalRow(p, key), LiveScores(p, key);
      if scores.None? then Batch([row], true)
      else if row.status.Completed? && scores.value != [] && AllPass(scores.value) then Batch([row], false)
      else Prepend(row, RetryBatch(p, c, rep, a + 1))
  }

  predicate NeedsRetry(p: Plan, row: AttemptRow, scores: seq<CaseScore>) {
    row.status.Completed? && SomeFail(scores) && p.retryMax > 0
  }

  function RepeatBatch(p: Plan, c: CaseId, rep: nat): Batch {
    var key := AttemptKey(c, rep, 0);
    var row, scores := FinalRow(p, key), LiveScores(p, key);
    if scores.None? then Batch([row], true)
    else if NeedsRetry(p, row, scores.value) then Prepend(row, RetryBatch(p, c, rep, 1))
    else Batch([row], false)
  }

  /** Repeats first, first + 1, ..., last - 1. */
  function CaseBatch(p: Plan, c: CaseId, first: nat, last: nat): Batch
    decreases last - first
  {
    if first >= last then Batch([], false)
    else
      var b := RepeatBatch(p, c, first);
      if b.raised then b else Follow(b, CaseBatch(p, c, first + 1, last))
  }

  /** The repeat index a fresh execution of the case starts from. */
  function NextRepeat(attempts: seq<AttemptRow>, c: CaseId): (n: nat)
    ensures forall a | a in attempts && a.key.caseId == c :: a.key.rep < n
    ensures n > 0 ==> exists a | a in attempts :: a.key.caseId == c && a.key.rep == n - 1
  {
    if attempts == [] then 0
    else
      var n, a := NextRepeat(attempts[..|attempts| - 1], c), attempts[|attempts| - 1];
      assert attempts == attempts[..|attempts| - 1] + [a];
      if a.key.caseId == c && a.key.rep >= n then a.key.rep + 1 else n
  }

  /** A first attempt as the classifier and the aggregation see it. */
  datatype Sample = Sample(status: AttemptState, scores: seq<CaseScore>)

  function SampleOf(p: Plan, key: AttemptKey): Sample {
    Sample(FinalRow(p, key).status, if LiveScores(p, key).Some? then LiveScores(p, key).value else [])
  }

  function Samples(p: Plan, c: CaseId, first: nat, last: nat): seq<Sample>
    requires first <= last
  {
    seq(last - first, i requires 0 <= i < last - first => SampleOf(p, AttemptKey(c, first + i, 0)))
  }

  predicate PassSample(s: Sample) {
    s.status.Completed? && s.scores != [] && AllPass(s.scores)
  }

  predicate FailSample(s: Sample) {
    s.status.Completed? && SomeFail(s.scores) && !SomeError(s.scores)
  }

  function ErrorOf(s: Sample): Option<Category> {
    if s.status.TimedOut? || s.status.Orphaned? || s.status.BudgetExceeded? then Some(Infra)
    else if !s.status.Completed? || s.scores == [] then Some(Agent)
    else if SomeError(s.scores) then Some(Evaluator)
    else None
  }

  predicate Shows(samples: seq<Sample>, category: Category) {
    exists s | s in samples :: ErrorOf(s) == Some(category)
  }

  predicate Passes(samples: seq<Sample>) { exists s | s in samples :: PassSample(s) }
  predicate Fails(samples: seq<Sample>) { exists s | s in samples :: FailSample(s) }

  function Classify(samples: seq<Sample>): Option<Classification> {
    if Passes(samples) && Fails(samples) then Some(Flaky)
    else if Passes(samples) then Some(Passing)
    else if Fails(samples) then Some(Failing)
    else if CategoryOf(samples).Some? then Some(AllErrored)
    else None
  }

  /** The most fundamental category among the errors. */
  function CategoryOf(samples: seq<Sample>): Option<Category> {
    if Shows(samples, Infra) then Some(Infra)
    else if Shows(samples, Agent) then Some(Agent)
    else if Shows(samples, Evaluator) then Some(Evaluator)
    else None
  }

  predicate SomeCancelled(samples: seq<Sample>) { exists s | s in samples :: s.status.Cancelled? }
  predicate SomeCompleted(samples: seq<Sample>) { exists s | s in samples :: s.status.Completed? }

  /** The row of a case whose repeats all ended without an exception. */
  function CaseAfter(row: CaseRow, samples: seq<Sample>): CaseRow {
    if SomeCancelled(samples) then row.(status := CaseState.Cancelled)
    else
      CaseRow(if SomeCompleted(samples) then CaseState.Completed else CaseState.Failed,
              Classify(samples), CategoryOf(samples))
  }

  datatype CaseRun = CaseRun(db: Db, raised: bool, samples: seq<Sample>)

  function RunCase(p: Plan, d: Db, c: CaseId): CaseRun
    requires c in d.cases
  {
    var first := NextRepeat(d.attempts, c);
    var batch, samples := CaseBatch(p, c, first, first + p.repeats), Samples(p, c, first, first + p.repeats);
    var row := if batch.raised then d.cases[c].(status := CaseState.Running) else CaseAfter(d.cases[c], samples);
    CaseRun(d.(cases := d.cases[c := row], attempts := d.attempts + batch.rows), batch.raised, samples)
  }

  // ---- Metric rows -----------------------------------------------------------------------------

  /** Scores that have landed: for each attempt one score per metric. */
  type Landed = seq<seq<CaseScore>>

  function LandedOf(samples: seq<Sample>): Landed {
    if samples == [] then []
    else
      var s := samples[|samples| - 1];
      LandedOf(samples[..|samples| - 1]) + (if s.status.Completed? then [s.scores] else [])
  }

  function Column(landed: Landed, i: nat): seq<CaseScore> {
    if landed == [] then []
    else
      var v := landed[|landed| - 1];
      Column(landed[..|landed| - 1], i) + (if i < |v| then [v[i]] else [])
  }

  function Expected(p: Plan): nat { |p.cases| * p.repeats }

  function MetricRowFor(p: Plan, i: nat, landed: Landed, inProgress: bool, final: bool): MetricRow
    requires i < |p.metrics|
  {
    var aggregate := AggregateMetric(p.metrics[i], Column(landed, i), Expected(p), inProgress);
    var value := if aggregate.Some? then aggregate.value.value else None;
    MetricRow(aggregate, if final then Some(GateOf(p.metrics[i], value)) else None)
  }

  function WriteMetrics(p: Plan, rows: map<string, MetricRow>, landed: Landed, inProgress: bool, final: bool, i: nat)
    : map<string, MetricRow>
    requires i <= |p.metrics|
  {
    if i == 0 then rows
    else WriteMetrics(p, rows, landed, inProgress, final, i - 1)
           [p.metrics[i - 1].id := MetricRowFor(p, i - 1, landed, inProgress, final)]
  }

  function Streamed(p: Plan, d: Db, landed: Landed, inProgress: bool, final: bool): Db {
    d.(metrics := WriteMetrics(p, d.metrics, landed, inProgress, final, |p.metrics|))
  }

  // ---- One session -----------------------------------------------------------------------------

  /** Cancelled and incomplete runs come back only through an explicit resume, which requeues more. */
  predicate Resumed(run: RunState) { run.Cancelled? || run.Incomplete? }

  function Restart(run: RunState, row: CaseRow): CaseRow {
    match row.status
    case Running => row.(status := CaseState.Queued)
    case Cancelled => if Resumed(run) then row.(status := CaseState.Queued) else row
    case Failed =>
      if Resumed(run) || run.Running? || run.Aggregating? then row.(status := CaseState.Queued) else row
    case _ => row
  }

  function Orphan(row: AttemptRow): AttemptRow {
    if AttemptClosed(row.status) then row else row.(status := AttemptState.Orphaned)
  }

  function OrphanAll(attempts: seq<AttemptRow>): seq<AttemptRow> {
    seq(|attempts|, i requires 0 <= i < |attempts| => Orphan(attempts[i]))
  }

  /** The tables when the case loop begins. */
  function Start(d: Db): Db {
    Db(if d.run.Aggregating? then d.run else RunState.Running,
       map c | c in d.cases :: Restart(d.run, d.cases[c]),
       OrphanAll(d.attempts), d.metrics)
  }

  datatype How = Finished | Stopped | Raised
  datatype LoopEnd = LoopEnd(how: How, db: Db, executed: set<CaseId>, landed: Landed)

  /** The loop over the cases from the i-th on; cancel is what polling answers before each case. */
  function Loop(p: Plan, d: Db, i: nat, executed: set<CaseId>, landed: Landed, cancel: nat -> bool): LoopEnd
    requires i <= |p.cases| && forall c | c in p.cases :: c in d.cases
    decreases |p.cases| - i
  {
    if i == |p.cases| then LoopEnd(Finished, d, executed, landed)
    else if cancel(i) then LoopEnd(Stopped, d, executed, landed)
    else
      var c := p.cases[i];
      if CaseClosed(d.cases[c].status) then Loop(p, d, i + 1, executed, landed, cancel)
      else
        var r := RunCase(p, d, c);
        if r.raised then LoopEnd(Raised, r.db, executed, landed)
        else
          var landed' := landed + LandedOf(r.samples);
          var d' := Streamed(p, r.db, landed', true, false);
          if SomeCancelled(r.samples) then LoopEnd(Stopped, d', executed + {c}, landed')
          else Loop(p, d', i + 1, executed + {c}, landed', cancel)
  }

  /** Re-scores the stored first attempts of one case, oldest first. */
  function RescoreCase(p: Plan, attempts: seq<AttemptRow>, c: CaseId): Option<Landed> {
    if attempts == [] then Some([])
    else
      var front, a := RescoreCase(p, attempts[..|attempts| - 1], c), attempts[|attempts| - 1];
      if a.key.caseId != c || a.key.attempt > 0 then front
      else
        match (front, ScoreAll(p.metrics, p.rescore, c, a.trace, false))
        case (Some(scores), Some(v)) => Some(scores + [v])
        case _ => None
  }

  /** Re-scores every case that this session did not execute, among the first i. */
  function RescoreRest(p: Plan, attempts: seq<AttemptRow>, executed: set<CaseId>, i: nat): Option<Landed>
    requires i <= |p.cases|
  {
    if i == 0 then Some([])
    else
      var front := RescoreRest(p, attempts, executed, i - 1);
      if p.cases[i - 1] in executed then front
      else
        match (front, RescoreCase(p, attempts, p.cases[i - 1]))
        case (Some(scores), Some(more)) => Some(scores + more)
        case _ => None
  }

  function CloseCase(row: CaseRow): CaseRow {
    if CaseClosed(row.status) then row else row.(status := CaseState.Cancelled)
  }

  datatype Ending = WasRefused | WasCompleted | WasCancelled | HadError
  datatype Session = Session(ending: Ending, db: Db)

  /** A cancelled session closes every case; a run resumed while aggregating cannot land in cancelled. */
  function Cancel(p: Plan, l: LoopEnd): Session {
    var closed := l.db.(cases := map c | c in l.db.cases :: CloseCase(l.db.cases[c]));
    var streamed := Streamed(p, closed, l.landed, false, false);
    if RunLegal(l.db.run, RunState.Cancelled) then Session(WasCancelled, streamed.(run := RunState.Cancelled))
    else Session(HadError, streamed.(run := RunState.Incomplete))
  }

  function Finalize(p: Plan, l: LoopEnd): Session {
    match RescoreRest(p, l.db.attempts, l.executed, |p.cases|)
    case None => Session(HadError, l.db.(run := RunState.Incomplete))
    case Some(more) =>
      Session(WasCompleted, Streamed(p, l.db, l.landed + more, false, true).(run := RunState.Complete))
  }

  function RunSession(p: Plan, d: Db, cancel: nat -> bool): Session
    requires DbInv(p, d)
  {
    if d.run.Complete? || d.run.Failed? then Session(WasRefused, d)
    else
      var l := Loop(p, Start(d), 0, {}, [], cancel);
      match l.how
      case Finished => Finalize(p, l)
      case Stopped => Cancel(p, l)
      case Raised => Session(HadError, l.db.(run := RunState.Incomplete))
  }
}
