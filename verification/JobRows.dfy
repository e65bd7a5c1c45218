/**
 The life of one job row: what each guarded UPDATE of the queue does to the row it
 addresses, which outbox event it appends, and the invariant that ties status, fence,
 attempts, lease and cancellation flag together.
*/
module JobRows {
  import opened Wrappers

  type Command = map<string, string>

  datatype Status = Queued | Leased | Completed | Failed | Cancelled {
    predicate Terminal() { Completed? || Failed? || Cancelled? }
  }

  datatype Kind = WasQueued | WasLeased | WasCompleted | WasFailed | WasCancelled | CancelRequested

  /** A row of the jobs table. The keyed digest of a command is collision free, so the command stands for it. */
  datatype Row = Row(
    digest: Command, key: string, status: Status, attempts: nat, maxAttempts: nat, fence: nat,
    worker: Option<string>, expires: Option<int>, cancelRequested: bool,
    result: Option<string>, error: Option<string>, created: int, updated: int)

  function NewRow(command: Command, key: string, maxAttempts: nat, now: int): Row {
    Row(command, key, Queued, 0, maxAttempts, 0, None, None, false, None, None, now, now)
  }

  /** One guarded UPDATE on one existing row, with the clock value its transaction read. */
  datatype Action =
    | Expire(now: int)
    | Lease(worker: string, now: int, until: int)
    | Heartbeat(fence: nat, now: int, until: int)
    | Complete(fence: nat, now: int, result: string)
    | Fail(fence: nat, now: int, error: string)
    | Abandon(fence: nat, now: int)
    | AcknowledgeCancel(fence: nat, now: int)
    | RequestCancel(now: int)

  predicate Live(r: Row, now: int) { r.expires.Some? && r.expires.value > now }

  predicate Expired(r: Row, now: int) {
    r.status.Leased? && r.expires.Some? && r.expires.value <= now
  }

  predicate Claimable(r: Row) { r.status.Queued? && !r.cancelRequested }

  /** The WHERE clause of the update. */
  predicate Enabled(r: Row, a: Action) {
    match a
    case Expire(now) => Expired(r, now)
    case Lease(_, _, _) => Claimable(r)
    case Heartbeat(f, now, _) => r.status.Leased? && r.fence == f && Live(r, now) && !r.cancelRequested
    case Complete(f, now, _) => r.status.Leased? && r.fence == f && Live(r, now) && !r.cancelRequested
    case Fail(f, now, _) => r.status.Leased? && r.fence == f && Live(r, now) && !r.cancelRequested
    case Abandon(f, _) => r.status.Leased? && r.fence == f
    case AcknowledgeCancel(f, _) => r.status.Leased? && r.fence == f && r.cancelRequested
    case RequestCancel(_) => !r.status.Terminal()
  }

  function ExpireTo(r: Row): Status {
    if r.cancelRequested then Cancelled else if r.attempts >= r.maxAttempts then Failed else Queued
  }

  /** The SET clause of the update. */
  function Apply(r: Row, a: Action): Row {
    match a
    case Expire(now) =>
      r.(status := ExpireTo(r), worker := None, expires := None, updated := now,
         error := if ExpireTo(r).Failed? then Some("retry_exhausted") else None)
    case Lease(w, now, until) =>
      r.(status := Leased, attempts := r.attempts + 1, fence := r.fence + 1,
         worker := Some(w), expires := Some(until), updated := now)
    case Heartbeat(_, now, until) => r.(expires := Some(until), updated := now)
    case Complete(_, now, result) =>
      r.(status := Completed, result := Some(result), worker := None, expires := None, updated := now)
    case Fail(_, now, error) =>
      r.(status := Failed, error := Some(error), worker := None, expires := None, updated := now)
    case Abandon(_, now) => r.(expires := Some(now), updated := now)
    case AcknowledgeCancel(_, now) => r.(status := Cancelled, worker := None, expires := None, updated := now)
    case RequestCancel(now) =>
      if r.status.Queued? then
        r.(cancelRequested := true, status := Cancelled, worker := None, expires := None, updated := now)
      else
        r.(cancelRequested := true, updated := now)
  }

  function StatusEvent(s: Status): Kind {
    match s
    case Queued => WasQueued
    case Leased => WasLeased
    case Completed => WasCompleted
    case Failed => WasFailed
    case Cancelled => WasCancelled
  }

  /** The outbox rows appended with the update. */
  function Emits(r: Row, a: Action): seq<Kind> {
    match a
    case Expire(_) => [StatusEvent(ExpireTo(r))]
    case Lease(_, _, _) => [WasLeased]
    case Heartbeat(_, _, _) => []
    case Complete(_, _, _) => [WasCompleted]
    case Fail(_, _, _) => [WasFailed]
    case Abandon(_, _) => []
    case AcknowledgeCancel(_, _) => [WasCancelled]
    case RequestCancel(_) => [if r.status.Queued? then WasCancelled else CancelRequested]
  }

  /** What every reachable row satisfies. */
  ghost predicate RowInv(r: Row) {
    && r.attempts == r.fence
    && 1 <= r.maxAttempts <= 20
    && r.attempts <= r.maxAttempts
    && (r.status.Queued? ==> r.attempts < r.maxAttempts && !r.cancelRequested)
    && (r.status.Leased? ==> 1 <= r.attempts && r.worker.Some? && r.expires.Some?)
    && (!r.status.Leased? ==> r.worker.None? && r.expires.None?)
    && (r.status.Cancelled? ==> r.cancelRequested)
    && (r.status.Completed? || r.status.Failed? ==> !r.cancelRequested)
    && (r.status.Completed? <==> r.result.Some?)
    && (r.status.Failed? <==> r.error.Some?)
  }

  lemma ActionKeepsRowInv(r: Row, a: Action)
    requires RowInv(r) && Enabled(r, a)
    ensures RowInv(Apply(r, a))
  {
  }

  /** How many status changes a row can still make. */
  function Fuel(r: Row): int {
    if r.status.Terminal() then 0
    else 2 * (r.maxAttempts - r.attempts) + (if r.status.Leased? then 1 else 0)
  }

  lemma StatusChangeBurnsFuel(r: Row, a: Action)
    requires RowInv(r) && Enabled(r, a)
    ensures Fuel(r) >= 0 && Fuel(Apply(r, a)) >= 0
    ensures Apply(r, a).status != r.status ==> Fuel(Apply(r, a)) < Fuel(r)
    ensures Apply(r, a).status == r.status ==> Fuel(Apply(r, a)) == Fuel(r)
  {
  }

  // ---- Replaying a job's events -------------------------------------------------

  datatype Summary = NoJob | Known(status: Status, fence: nat, cancelRequested: bool)

  function Summarize(r: Row): Summary { Known(r.status, r.fence, r.cancelRequested) }

  function ReplayEvent(s: Summary, k: Kind): Summary {
    var fence := if s.Known? then s.fence else 0;
    var flag := s.Known? && s.cancelRequested;
    match k
    case WasQueued => Known(Queued, fence, flag)
    case WasLeased => Known(Leased, fence + 1, flag)
    case WasCompleted => Known(Completed, fence, flag)
    case WasFailed => Known(Failed, fence, flag)
    case WasCancelled => Known(Cancelled, fence, true)
    case CancelRequested => Known(if s.Known? then s.status else Queued, fence, true)
  }

  /** Folds the events of one job in append order. */
  function Replay(h: seq<Kind>): Summary {
    if h == [] then NoJob else ReplayEvent(Replay(h[..|h| - 1]), h[|h| - 1])
  }

  lemma ReplayAppend(h: seq<Kind>, k: Kind)
    ensures Replay(h + [k]) == ReplayEvent(Replay(h), k)
  {
    assert (h + [k])[..|h|] == h;
  }

  lemma ActionMatchesReplay(r: Row, a: Action)
    requires RowInv(r) && Enabled(r, a)
    ensures |Emits(r, a)| <= 1
    ensures Emits(r, a) == [] ==> Summarize(Apply(r, a)) == Summarize(r)
    ensures Emits(r, a) != [] ==> Summarize(Apply(r, a)) == ReplayEvent(Summarize(r), Emits(r, a)[0])
    ensures Apply(r, a).status != r.status <==> Emits(r, a) != [] && Emits(r, a)[0] != CancelRequested
  {
  }

  function CountLeased(h: seq<Kind>): nat { multiset(h)[WasLeased] }

  /** Events that record a status change. */
  function Changes(h: seq<Kind>): nat { |h| - multiset(h)[CancelRequested] }

  lemma CountAppend(h: seq<Kind>, k: Kind)
    ensures multiset(h + [k]) == multiset(h) + multiset{k}
    ensures Changes(h + [k]) == Changes(h) + (if k == CancelRequested then 0 else 1)
    ensures CountLeased(h + [k]) == CountLeased(h) + (if k == WasLeased then 1 else 0)
  {
  }

  function LastStatus(h: seq<Kind>): Option<Kind> {
    if h == [] then None
    else if h[|h| - 1] != CancelRequested then Some(h[|h| - 1])
    else LastStatus(h[..|h| - 1])
  }

  lemma {:induction false} ReplayStatus(h: seq<Kind>)
    requires h != [] && h[0] == WasQueued
    ensures Replay(h).Known? && LastStatus(h) == Some(StatusEvent(Replay(h).status))
  {
    if |h| > 1 {
      var front := h[..|h| - 1];
      assert Replay(h) == ReplayEvent(Replay(front), h[|h| - 1]);
      hide Replay;
      ReplayStatus(front);
    } else {
      assert Replay(h[..0]) == NoJob;
    }
  }

  lemma {:induction false} ReplayFence(h: seq<Kind>)
    ensures h == [] || Replay(h).Known?
    ensures (if h == [] then 0 else Replay(h).fence) == CountLeased(h)
  {
    if h != [] {
      var front := h[..|h| - 1];
      assert h == front + [h[|h| - 1]];
      ReplayFence(front);
      CountAppend(front, h[|h| - 1]);
    }
  }

  lemma MemberOfSnoc(front: seq<Kind>, last: Kind, k: Kind)
    ensures k in front + [last] <==> k in front || k == last
  {
  }

  lemma {:induction false} ReplayFlag(h: seq<Kind>)
    requires h != []
    ensures Replay(h).Known?
    ensures Replay(h).cancelRequested <==> CancelRequested in h || WasCancelled in h
  {
    var front, last := h[..|h| - 1], h[|h| - 1];
    assert Replay(h) == ReplayEvent(Replay(front), last) && (front == [] ==> Replay(front) == NoJob);
    hide Replay;
    assert h == front + [last];
    MemberOfSnoc(front, last, CancelRequested);
    MemberOfSnoc(front, last, WasCancelled);
    if front != [] {
      ReplayFlag(front);
    }
  }

  /** The fold in closed form, for a history that opens with the event of the insert. */
  lemma ReplayClosedForm(h: seq<Kind>)
    requires h != [] && h[0] == WasQueued
    ensures Replay(h).Known?
    ensures LastStatus(h) == Some(StatusEvent(Replay(h).status))
    ensures Replay(h).fence == CountLeased(h)
    ensures Replay(h).cancelRequested <==> CancelRequested in h || WasCancelled in h
  {
    ReplayStatus(h);
    ReplayFence(h);
    ReplayFlag(h);
  }
}
