/** The single writes a session performs on the tables, and what holds after a crash between any two of them. */
module EngineWrites {
  import opened Wrappers
  import opened Lifecycle
  import opened Sessions
  import opened SessionClosure

  /** One committed write; an attempt is known by its position in the table. */
  datatype Write =
    | SetRun(run: RunState)
    | SetCase(c: CaseId, state: CaseState)
    | SetVerdict(c: CaseId, classification: Option<Classification>, category: Option<Category>)
    | Create(key: AttemptKey)
    | Ingest(i: nat, trace: Trace)
    | SetAttempt(i: nat, status: AttemptState)
    | SetMetric(id: string, row: MetricRow)

  ghost predicate HasKey(rows: seq<AttemptRow>, key: AttemptKey) { exists i | 0 <= i < |rows| :: rows[i].key == key }

  /** Status changes follow the tables, attempt keys are fresh, and a retry follows the attempt it retries. */
  ghost predicate Allowed(p: Plan, d: Db, w: Write) {
    match w
    case SetRun(run) => RunLegal(d.run, run)
    case SetCase(c, state) => c in d.cases && CaseLegal(d.cases[c].status, state)
    case SetVerdict(c, _, _) => c in d.cases && d.cases[c].status.Running?
    case Create(key) =>
      key.caseId in d.cases && !HasKey(d.attempts, key) && (key.attempt > 0 ==> HasKey(d.attempts, Before(key)))
    case Ingest(i, _) => i < |d.attempts| && d.attempts[i].status.Running?
    case SetAttempt(i, status) => i < |d.attempts| && AttemptLegal(d.attempts[i].status, status)
    case SetMetric(id, _) => id in MetricIds(p)
  }

  function Put(d: Db, w: Write): Db {
    match w
    case SetRun(run) => d.(run := run)
    case SetCase(c, state) => if c in d.cases then d.(cases := d.cases[c := d.cases[c].(status := state)]) else d
    case SetVerdict(c, classification, category) =>
      if c in d.cases then d.(cases := d.cases[c := CaseRow(d.cases[c].status, classification, category)]) else d
    case Create(key) => d.(attempts := d.attempts + [AttemptRow(key, AttemptState.Queued, NO_EVENTS)])
    case Ingest(i, trace) =>
      if i < |d.attempts| then d.(attempts := d.attempts[i := d.attempts[i].(trace := trace)]) else d
    case SetAttempt(i, status) =>
      if i < |d.attempts| then d.(attempts := d.attempts[i := d.attempts[i].(status := status)]) else d
    case SetMetric(id, row) => d.(metrics := d.metrics[id := row])
  }

  function Exec(d: Db, ws: seq<Write>): Db {
    if ws == [] then d else Put(Exec(d, ws[..|ws| - 1]), ws[|ws| - 1])
  }

  ghost predicate Legal(p: Plan, d: Db, ws: seq<Write>) {
    ws == [] || (Legal(p, d, ws[..|ws| - 1]) && Allowed(p, Exec(d, ws[..|ws| - 1]), ws[|ws| - 1]))
  }

  lemma SameKeysKeepInv(xs: seq<AttemptRow>, ys: seq<AttemptRow>)
    requires |xs| == |ys| && (forall i | 0 <= i < |xs| :: xs[i].key == ys[i].key) && KeysDistinct(xs) && RetriesFollow(xs)
    ensures KeysDistinct(ys) && RetriesFollow(ys)
  {
    forall i | 0 <= i < |ys| && ys[i].key.attempt > 0 ensures exists k | 0 <= k < i :: ys[k].key == Before(ys[i].key) {
      var k :| 0 <= k < i && xs[k].key == Before(xs[i].key);
      assert ys[k].key == Before(ys[i].key);
    }
  }

  lemma CreateKeepsInv(xs: seq<AttemptRow>, row: AttemptRow)
    requires KeysDistinct(xs) && RetriesFollow(xs)
    requires !HasKey(xs, row.key) && (row.key.attempt > 0 ==> HasKey(xs, Before(row.key)))
    ensures KeysDistinct(xs + [row]) && RetriesFollow(xs + [row])
  {
    var ys := xs + [row];
    forall i | 0 <= i < |ys| && ys[i].key.attempt > 0 ensures exists k | 0 <= k < i :: ys[k].key == Before(ys[i].key) {
      if i < |xs| {
        var k :| 0 <= k < i && xs[k].key == Before(xs[i].key);
        assert ys[k].key == Before(ys[i].key);
      } else {
        var k :| 0 <= k < |xs| && xs[k].key == Before(row.key);
        assert ys[k].key == Before(ys[i].key);
      }
    }
  }

  lemma PutKeepsInv(p: Plan, d: Db, w: Write)
    requires DbInv(p, d) && Allowed(p, d, w)
    ensures DbInv(p, Put(d, w))
  {
    hide KeysDistinct, RetriesFollow, HasKey, MetricIds;
    var e := Put(d, w);
    match w
    case Create(key) => CreateKeepsInv(d.attempts, AttemptRow(key, AttemptState.Queued, NO_EVENTS));
    case Ingest(i, trace) => SameKeysKeepInv(d.attempts, e.attempts);
    case SetAttempt(i, status) => SameKeysKeepInv(d.attempts, e.attempts);
    case _ =>
  }

  /** A crash after the first k writes, of any number of sessions, leaves a state that satisfies the invariant. */
  lemma {:induction false} CrashStatesKeepInv(p: Plan, d: Db, ws: seq<Write>, k: nat)
    requires DbInv(p, d) && Legal(p, d, ws) && k <= |ws|
    ensures DbInv(p, Exec(d, ws[..k])) && Legal(p, d, ws[..k])
    decreases |ws|
  {
    hide DbInv, Put, Allowed;
    if ws == [] {
      assert ws[..k] == ws;
    } else {
      var front := ws[..|ws| - 1];
      if k < |ws| {
        assert ws[..k] == front[..k];
        CrashStatesKeepInv(p, d, front, k);
      } else {
        assert ws[..k] == ws && front[..|front|] == front;
        CrashStatesKeepInv(p, d, front, |front|);
        PutKeepsInv(p, Exec(d, front), ws[|ws| - 1]);
      }
    }
  }

  /**
   Crash recovery: from the state left by a crash after any number of writes of any number of
   sessions, one crash-free session refuses exactly complete and failed runs, and otherwise
   lands the run with every case and attempt closed.
  */
  lemma CrashRecovery(p: Plan, d: Db, ws: seq<Write>, k: nat, cancel: nat -> bool)
    requires DbInv(p, d) && Legal(p, d, ws) && k <= |ws|
    ensures var crashed := Exec(d, ws[..k]);
            && DbInv(p, crashed) && Landing(p, crashed, RunSession(p, crashed, cancel))
            && (RunSession(p, crashed, cancel).ending.WasRefused? <==> crashed.run.Complete? || crashed.run.Failed?)
  {
    hide Landing, RunSession, DbInv, Exec, Legal;
    CrashStatesKeepInv(p, d, ws, k);
    SessionCloses(p, Exec(d, ws[..k]), cancel);
  }

  /** What is final in the tables: a finished run, finished and skipped cases, closed attempts and their traces. */
  ghost predicate FinalKept(d: Db, e: Db) {
    && (d.run.Complete? || d.run.Failed? ==> e.run == d.run)
    && (forall c | c in d.cases :: c in e.cases)
    && (forall c | c in d.cases && (d.cases[c].status.Completed? || d.cases[c].status.Skipped?) :: e.cases[c] == d.cases[c])
    && |d.attempts| <= |e.attempts|
    && (forall i | 0 <= i < |d.attempts| :: e.attempts[i].key == d.attempts[i].key)
    && (forall i | 0 <= i < |d.attempts| && AttemptClosed(d.attempts[i].status) :: e.attempts[i] == d.attempts[i])
  }

  /** Over any writes, what is final stays as it is and no attempt is ever removed or renumbered. */
  lemma {:induction false} FinalStaysFinal(p: Plan, d: Db, ws: seq<Write>, k: nat)
    requires Legal(p, d, ws) && k <= |ws|
    ensures FinalKept(Exec(d, ws[..k]), Exec(d, ws))
    decreases |ws|
  {
    if k == |ws| {
      assert ws[..k] == ws;
    } else {
      var front := ws[..|ws| - 1];
      assert ws[..k] == front[..k];
      FinalStaysFinal(p, d, front, k);
      StepKeepsFinal(p, Exec(d, ws[..k]), Exec(d, front), ws[|ws| - 1]);
    }
  }

  lemma StepKeepsFinal(p: Plan, d: Db, e: Db, w: Write)
    requires FinalKept(d, e) && Allowed(p, e, w)
    ensures FinalKept(d, Put(e, w))
  {
    hide HasKey, MetricIds;
  }
}
