/** The run, case and attempt status machines: the tables of legal arcs and what they allow over time. */
module Lifecycle {
  import opened Wrappers

  datatype RunState = Draft | Queued | Provisioning | Running | Aggregating | Complete | Failed | Cancelled | Incomplete
  datatype CaseState = Queued | Running | Completed | Failed | Cancelled | Skipped
  datatype AttemptState =
    | Queued | Running | Completed | TimedOut | BudgetExceeded | Cancelled | Orphaned | Errored

  datatype IllegalTransition = IllegalTransition

  function RunTargets(s: RunState): set<RunState> {
    match s
    case Draft => {RunState.Queued, RunState.Cancelled}
    case Queued => {RunState.Provisioning, RunState.Cancelled}
    case Provisioning => {RunState.Running, RunState.Failed, RunState.Cancelled}
    case Running => {RunState.Aggregating, RunState.Failed, RunState.Cancelled, RunState.Incomplete}
    case Aggregating => {RunState.Complete, RunState.Failed, RunState.Incomplete}
    case Complete => {}
    case Failed => {}
    case Cancelled => {RunState.Queued}
    case Incomplete => {RunState.Queued, RunState.Cancelled}
  }

  function CaseTargets(s: CaseState): set<CaseState> {
    match s
    case Queued => {CaseState.Running, CaseState.Cancelled, CaseState.Skipped}
    case Running => {CaseState.Completed, CaseState.Failed, CaseState.Cancelled}
    case Completed => {}
    case Failed => {CaseState.Queued}
    case Cancelled => {CaseState.Queued}
    case Skipped => {}
  }

  function AttemptTargets(s: AttemptState): set<AttemptState> {
    match s
    case Queued => {AttemptState.Running, AttemptState.Cancelled, AttemptState.Orphaned}
    case Running => {AttemptState.Completed, AttemptState.TimedOut, AttemptState.BudgetExceeded,
                     AttemptState.Cancelled, AttemptState.Orphaned, AttemptState.Errored}
    case _ => {}
  }

  /** Moving to the same status is a legal no-op; any other move must be in the table. */
  function Transition<S(==)>(current: S, target: S, table: S -> set<S>): (r: Result<S, IllegalTransition>)
    ensures r.Success? <==> target == current || target in table(current)
    ensures r.Success? ==> r.value == target
  {
    if current == target || target in table(current) then Success(target) else Failure(IllegalTransition)
  }

  predicate RunLegal(s: RunState, t: RunState) { Transition(s, t, RunTargets).Success? }
  predicate CaseLegal(s: CaseState, t: CaseState) { Transition(s, t, CaseTargets).Success? }
  predicate AttemptLegal(s: AttemptState, t: AttemptState) { Transition(s, t, AttemptTargets).Success? }

  // ---- The same arcs by where they lead ----------------------------------------------------------

  function RunSources(t: RunState): set<RunState> {
    match t
    case Draft => {}
    case Queued => {RunState.Draft, RunState.Cancelled, RunState.Incomplete}
    case Provisioning => {RunState.Queued}
    case Running => {RunState.Provisioning}
    case Aggregating => {RunState.Running}
    case Complete => {RunState.Aggregating}
    case Failed => {RunState.Provisioning, RunState.Running, RunState.Aggregating}
    case Cancelled => {RunState.Draft, RunState.Queued, RunState.Provisioning, RunState.Running, RunState.Incomplete}
    case Incomplete => {RunState.Running, RunState.Aggregating}
  }

  function CaseSources(t: CaseState): set<CaseState> {
    match t
    case Queued => {CaseState.Failed, CaseState.Cancelled}
    case Running => {CaseState.Queued}
    case Completed => {CaseState.Running}
    case Failed => {CaseState.Running}
    case Cancelled => {CaseState.Queued, CaseState.Running}
    case Skipped => {CaseState.Queued}
  }

  function AttemptSources(t: AttemptState): set<AttemptState> {
    match t
    case Queued => {}
    case Running => {AttemptState.Queued}
    case Cancelled => {AttemptState.Queued, AttemptState.Running}
    case Orphaned => {AttemptState.Queued, AttemptState.Running}
    case _ => {AttemptState.Running}
  }

  /** A status is legally reached exactly from itself and from its sources. */
  lemma ArcsBySource(s: RunState, t: RunState, c: CaseState, e: CaseState, a: AttemptState, b: AttemptState)
    ensures RunLegal(s, t) <==> s == t || s in RunSources(t)
    ensures CaseLegal(c, e) <==> c == e || c in CaseSources(e)
    ensures AttemptLegal(a, b) <==> a == b || a in AttemptSources(b)
  {
  }

  /** A case the run loop and a cancellation both leave alone. */
  predicate CaseClosed(s: CaseState) { s.Completed? || s.Failed? || s.Cancelled? || s.Skipped? }

  predicate AttemptClosed(s: AttemptState) { !s.Queued? && !s.Running? }

  ghost predicate RunPath(ss: seq<RunState>) { forall i | 0 <= i < |ss| - 1 :: RunLegal(ss[i], ss[i + 1]) }
  ghost predicate AttemptPath(ss: seq<AttemptState>) { forall i | 0 <= i < |ss| - 1 :: AttemptLegal(ss[i], ss[i + 1]) }

  /** A complete or failed run, and a closed attempt, never change again. */
  lemma {:induction false} TerminalIsFinal(runs: seq<RunState>, attempts: seq<AttemptState>, k: nat)
    requires RunPath(runs) && AttemptPath(attempts)
    ensures k < |runs| && (runs[0].Complete? || runs[0].Failed?) ==> runs[k] == runs[0]
    ensures k < |attempts| && AttemptClosed(attempts[0]) ==> attempts[k] == attempts[0]
  {
    if k > 0 {
      TerminalIsFinal(runs, attempts, k - 1);
      assert k < |runs| ==> RunLegal(runs[k - 1], runs[k - 1 + 1]);
      assert k < |attempts| ==> AttemptLegal(attempts[k - 1], attempts[k - 1 + 1]);
    }
  }

  /** No shortcuts: a run that becomes complete was aggregating just before, and running before that. */
  lemma {:induction false} CompletionPassesThrough(ss: seq<RunState>, k: nat)
    requires RunPath(ss) && k < |ss| && !ss[0].Running? && !ss[0].Aggregating? && !ss[0].Complete?
    ensures ss[k].Complete? ==> exists j, i | 0 < i < j < k :: ss[i].Running? && ss[j].Aggregating?
    ensures ss[k].Aggregating? ==> exists i | 0 < i < k :: ss[i].Running?
  {
    if k > 0 {
      CompletionPassesThrough(ss, k - 1);
      assert RunLegal(ss[k - 1], ss[k - 1 + 1]);
    }
  }
}
