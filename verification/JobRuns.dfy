/**
 The queue as a state machine: the jobs table, the append-only outbox and the worker
 writes made under a lease. A run is any sequence of atomic steps, so a lemma about
 Exec holds for every interleaving of every number of workers. No step assumes that
 clock values grow, except where a lemma says so.
*/
module JobRuns {
  import opened Wrappers
  import opened JobRows

  type JobId = nat

  datatype Event = Event(job: JobId, kind: Kind, at: int)

  /** A database effect a worker published under its lease. */
  datatype Write = Write(job: JobId, fence: nat, worker: string, data: string)

  datatype Queue = Queue(jobs: map<JobId, Row>, outbox: seq<Event>, published: seq<Write>)

  const EMPTY := Queue(map[], [], [])

  datatype Token = Token(job: JobId, fence: nat, worker: string)

  datatype Step =
    | Insert(job: JobId, command: Command, key: string, maxAttempts: nat, now: int)
    | Act(job: JobId, action: Action)
    | Publish(lease: Token, now: int, data: string)

  function TimeOf(s: Step): int {
    match s
    case Insert(_, _, _, _, now) => now
    case Act(_, a) => a.now
    case Publish(_, now, _) => now
  }

  predicate KeyTaken(jobs: map<JobId, Row>, key: string) {
    exists j | j in jobs :: jobs[j].key == key
  }

  /** The fencing test that guards every worker-owned write. */
  predicate HoldsLease(jobs: map<JobId, Row>, lease: Token, now: int) {
    && lease.job in jobs
    && var r := jobs[lease.job];
       r.status.Leased? && r.fence == lease.fence && r.worker == Some(lease.worker) && Live(r, now)
  }

  predicate Active(jobs: map<JobId, Row>, lease: Token, now: int) {
    HoldsLease(jobs, lease, now) && !jobs[lease.job].cancelRequested
  }

  predicate CanStep(q: Queue, s: Step) {
    match s
    case Insert(j, command, key, max, _) => j !in q.jobs && !KeyTaken(q.jobs, key) && 1 <= max <= 20
    case Act(j, a) => j in q.jobs && Enabled(q.jobs[j], a)
    case Publish(lease, now, _) => Active(q.jobs, lease, now)
  }

  function Tag(j: JobId, ks: seq<Kind>, at: int): seq<Event> {
    seq(|ks|, i requires 0 <= i < |ks| => Event(j, ks[i], at))
  }

  /** A step whose guard fails changes nothing: the UPDATE matches no row. */
  function Next(q: Queue, s: Step): Queue {
    if !CanStep(q, s) then q else
    match s
    case Insert(j, command, key, max, now) =>
      q.(jobs := q.jobs[j := NewRow(command, key, max, now)], outbox := q.outbox + [Event(j, WasQueued, now)])
    case Act(j, a) =>
      q.(jobs := q.jobs[j := Apply(q.jobs[j], a)], outbox := q.outbox + Tag(j, Emits(q.jobs[j], a), a.now))
    case Publish(lease, _, data) =>
      q.(published := q.published + [Write(lease.job, lease.fence, lease.worker, data)])
  }

  function Exec(q: Queue, ss: seq<Step>): Queue {
    if ss == [] then q else Next(Exec(q, ss[..|ss| - 1]), ss[|ss| - 1])
  }

  lemma {:induction false} ExecConcat(q: Queue, ss: seq<Step>, tt: seq<Step>)
    ensures Exec(q, ss + tt) == Exec(Exec(q, ss), tt)
  {
    if tt == [] {
      assert ss + tt == ss;
    } else {
      assert (ss + tt)[..|ss + tt| - 1] == ss + tt[..|tt| - 1];
      ExecConcat(q, ss, tt[..|tt| - 1]);
    }
  }

  /** The events of one job, in append order. */
  function History(outbox: seq<Event>, j: JobId): seq<Kind> {
    if outbox == [] then []
    else
      var last := outbox[|outbox| - 1];
      History(outbox[..|outbox| - 1], j) + (if last.job == j then [last.kind] else [])
  }

  lemma HistoryAppend(outbox: seq<Event>, e: Event, j: JobId)
    ensures History(outbox + [e], j) == History(outbox, j) + (if e.job == j then [e.kind] else [])
  {
    assert (outbox + [e])[..|outbox|] == outbox;
  }

  // ---- The invariant of every run -------------------------------------------------

  /** One job: its row, and the events that tell its story. */
  ghost predicate JobInv(r: Row, h: seq<Kind>) {
    && RowInv(r)
    && h != [] && h[0] == WasQueued
    && Replay(h) == Summarize(r)
    && Changes(h) + Fuel(r) <= 1 + 2 * r.maxAttempts
  }

  /** Published writes never go back to an older lease, and one lease is one worker's. */
  ghost predicate WritesInv(q: Queue) {
    && (forall i | 0 <= i < |q.published| :: WriteInv(q.jobs, q.published[i]))
    && (forall i, k | 0 <= i < k < |q.published| && q.published[i].job == q.published[k].job ::
          && q.published[i].fence <= q.published[k].fence
          && (q.published[i].fence == q.published[k].fence ==> q.published[i].worker == q.published[k].worker))
  }

  ghost predicate WriteInv(jobs: map<JobId, Row>, w: Write) {
    && w.job in jobs && 1 <= w.fence <= jobs[w.job].fence
    && (w.fence == jobs[w.job].fence && jobs[w.job].status.Leased? ==> jobs[w.job].worker == Some(w.worker))
  }

  ghost predicate JobsInv(q: Queue) {
    forall j | j in q.jobs :: JobInv(q.jobs[j], History(q.outbox, j))
  }

  ghost predicate OutboxInv(q: Queue) {
    forall e | e in q.outbox :: e.job in q.jobs
  }

  ghost predicate KeysInv(jobs: map<JobId, Row>) {
    forall i, j | i in jobs && j in jobs && jobs[i].key == jobs[j].key :: i == j
  }

  ghost predicate Inv(q: Queue) { JobsInv(q) && OutboxInv(q) && KeysInv(q.jobs) && WritesInv(q) }

  lemma {:induction false} UnknownJobHasNoHistory(outbox: seq<Event>, j: JobId)
    requires forall e | e in outbox :: e.job != j
    ensures History(outbox, j) == []
  {
    if outbox != [] {
      UnknownJobHasNoHistory(outbox[..|outbox| - 1], j);
    }
  }

  lemma FreshJobInv(command: Command, key: string, max: nat, now: int)
    requires 1 <= max <= 20
    ensures JobInv(NewRow(command, key, max, now), [WasQueued])
  {
    ReplayAppend([], WasQueued);
    assert [] + [WasQueued] == [WasQueued];
  }

  lemma InsertKeepsJob(q: Queue, s: Step, j: JobId)
    requires JobsInv(q) && OutboxInv(q) && s.Insert? && CanStep(q, s) && j in Next(q, s).jobs
    ensures JobInv(Next(q, s).jobs[j], History(Next(q, s).outbox, j))
  {
    HistoryAppend(q.outbox, Event(s.job, WasQueued, s.now), j);
    if j == s.job {
      UnknownJobHasNoHistory(q.outbox, j);
      FreshJobInv(s.command, s.key, s.maxAttempts, s.now);
      assert [] + [WasQueued] == [WasQueued];
    } else {
      assert JobInv(q.jobs[j], History(q.outbox, j));
      assert History(q.outbox, j) + [] == History(q.outbox, j);
    }
  }

  lemma InsertKeepsWritesInv(q: Queue, s: Step)
    requires WritesInv(q) && s.Insert? && CanStep(q, s)
    ensures WritesInv(Next(q, s))
  {
    var q' := Next(q, s);
    forall i | 0 <= i < |q'.published| ensures WriteInv(q'.jobs, q'.published[i]) {
      assert WriteInv(q.jobs, q.published[i]);
    }
  }

  lemma ActKeepsJobInv(r: Row, h: seq<Kind>, a: Action)
    requires JobInv(r, h) && Enabled(r, a)
    ensures JobInv(Apply(r, a), h + Emits(r, a))
  {
    ActionKeepsRowInv(r, a);
    ActionMatchesReplay(r, a);
    StatusChangeBurnsFuel(r, a);
    if Emits(r, a) == [] {
      assert h + Emits(r, a) == h;
    } else {
      var k := Emits(r, a)[0];
      assert Emits(r, a) == [k];
      ReplayAppend(h, k);
      CountAppend(h, k);
    }
  }

  lemma TagHistory(outbox: seq<Event>, j: JobId, ks: seq<Kind>, at: int, i: JobId)
    requires |ks| <= 1
    ensures History(outbox + Tag(j, ks, at), i) == History(outbox, i) + (if i == j then ks else [])
  {
    if ks == [] {
      assert outbox + Tag(j, ks, at) == outbox;
    } else {
      assert Tag(j, ks, at) == [Event(j, ks[0], at)];
      HistoryAppend(outbox, Event(j, ks[0], at), i);
    }
  }

  lemma ActKeepsJob(q: Queue, s: Step, j: JobId)
    requires JobsInv(q) && s.Act? && CanStep(q, s) && j in q.jobs
    ensures JobInv(Next(q, s).jobs[j], History(Next(q, s).outbox, j))
  {
    var r := q.jobs[s.job];
    ActionMatchesReplay(r, s.action);
    TagHistory(q.outbox, s.job, Emits(r, s.action), s.action.now, j);
    assert JobInv(q.jobs[j], History(q.outbox, j));
    if j == s.job {
      ActKeepsJobInv(r, History(q.outbox, j), s.action);
    } else {
      assert History(q.outbox, j) + [] == History(q.outbox, j);
    }
  }

  lemma ActKeepsFence(r: Row, a: Action)
    requires Enabled(r, a)
    ensures Apply(r, a).key == r.key
    ensures r.fence <= Apply(r, a).fence
    ensures Apply(r, a).fence == r.fence && Apply(r, a).status.Leased? ==> r.status.Leased? && Apply(r, a).worker == r.worker
  {
  }

  lemma ActKeepsWritesInv(q: Queue, s: Step)
    requires WritesInv(q) && s.Act? && CanStep(q, s)
    ensures WritesInv(Next(q, s))
  {
    var q' := Next(q, s);
    ActKeepsFence(q.jobs[s.job], s.action);
    forall i | 0 <= i < |q'.published| ensures WriteInv(q'.jobs, q'.published[i]) {
      assert WriteInv(q.jobs, q.published[i]);
    }
  }

  lemma PublishKeepsWritesInv(q: Queue, s: Step)
    requires JobsInv(q) && WritesInv(q) && s.Publish? && CanStep(q, s)
    ensures WritesInv(Next(q, s))
  {
    var q' := Next(q, s);
    assert JobInv(q.jobs[s.lease.job], History(q.outbox, s.lease.job));
    forall i | 0 <= i < |q'.published| ensures WriteInv(q'.jobs, q'.published[i]) {
      if i < |q.published| {
        assert WriteInv(q.jobs, q.published[i]);
      }
    }
  }

  lemma StepKeepsJobsInv(q: Queue, s: Step)
    requires JobsInv(q) && OutboxInv(q)
    ensures JobsInv(Next(q, s))
  {
    if CanStep(q, s) && !s.Publish? {
      forall j | j in Next(q, s).jobs ensures JobInv(Next(q, s).jobs[j], History(Next(q, s).outbox, j)) {
        if s.Insert? {
          InsertKeepsJob(q, s, j);
        } else {
          ActKeepsJob(q, s, j);
        }
      }
    }
  }

  lemma StepKeepsKeysInv(q: Queue, s: Step)
    requires KeysInv(q.jobs)
    ensures KeysInv(Next(q, s).jobs)
  {
    if s.Act? && CanStep(q, s) {
      ActKeepsFence(q.jobs[s.job], s.action);
    }
  }

  lemma StepKeepsOutboxInv(q: Queue, s: Step)
    requires OutboxInv(q)
    ensures OutboxInv(Next(q, s))
  {
  }

  lemma StepKeepsWritesInv(q: Queue, s: Step)
    requires JobsInv(q) && WritesInv(q)
    ensures WritesInv(Next(q, s))
  {
    if CanStep(q, s) {
      match s
      case Insert(_, _, _, _, _) => InsertKeepsWritesInv(q, s);
      case Act(_, _) => ActKeepsWritesInv(q, s);
      case Publish(_, _, _) => PublishKeepsWritesInv(q, s);
    }
  }

  lemma StepKeepsInv(q: Queue, s: Step)
    requires Inv(q)
    ensures Inv(Next(q, s))
  {
    StepKeepsJobsInv(q, s);
    StepKeepsOutboxInv(q, s);
    StepKeepsKeysInv(q, s);
    StepKeepsWritesInv(q, s);
  }

  /** Every state of every run is consistent. */
  lemma {:induction false} RunInv(ss: seq<Step>)
    ensures Inv(Exec(EMPTY, ss))
  {
    if ss != [] {
      RunInv(ss[..|ss| - 1]);
      StepKeepsInv(Exec(EMPTY, ss[..|ss| - 1]), ss[|ss| - 1]);
    }
  }

  // ---- Main results, for every run --------------------------------------------------

  /** Outbox replay: a job's events, read in append order, determine its row. */
  lemma OutboxReplay(ss: seq<Step>, j: JobId)
    requires j in Exec(EMPTY, ss).jobs
    ensures var q := Exec(EMPTY, ss);
            var r, h := q.jobs[j], History(q.outbox, j);
            && LastStatus(h) == Some(StatusEvent(r.status))
            && r.fence == CountLeased(h)
            && (r.cancelRequested <==> CancelRequested in h || WasCancelled in h)
  {
    RunInv(ss);
    var q := Exec(EMPTY, ss);
    assert JobInv(q.jobs[j], History(q.outbox, j));
    ReplayClosedForm(History(q.outbox, j));
  }

  /** A job is leased at most maxAttempts times, and changes status at most 2 * maxAttempts times after its insert. */
  lemma BoundedRetries(ss: seq<Step>, j: JobId)
    requires j in Exec(EMPTY, ss).jobs
    ensures var q := Exec(EMPTY, ss);
            var r, h := q.jobs[j], History(q.outbox, j);
            CountLeased(h) == r.attempts <= r.maxAttempts && Changes(h) - 1 <= 2 * r.maxAttempts
  {
    RunInv(ss);
    var q := Exec(EMPTY, ss);
    assert JobInv(q.jobs[j], History(q.outbox, j));
    ReplayClosedForm(History(q.outbox, j));
  }

  /** Under an idempotency key there is never more than one job. */
  lemma OneJobPerKey(ss: seq<Step>, i: JobId, j: JobId)
    requires var jobs := Exec(EMPTY, ss).jobs; i in jobs && j in jobs && jobs[i].key == jobs[j].key
    ensures i == j
  {
    RunInv(ss);
  }

  /** A terminal row is final: no step of any worker changes any of its columns. */
  lemma {:induction false} TerminalIsFinal(ss: seq<Step>, tt: seq<Step>, j: JobId)
    requires j in Exec(EMPTY, ss).jobs && Exec(EMPTY, ss).jobs[j].status.Terminal()
    ensures j in Exec(EMPTY, ss + tt).jobs && Exec(EMPTY, ss + tt).jobs[j] == Exec(EMPTY, ss).jobs[j]
  {
    if tt == [] {
      assert ss + tt == ss;
    } else {
      assert (ss + tt)[..|ss + tt| - 1] == ss + tt[..|tt| - 1];
      TerminalIsFinal(ss, tt[..|tt| - 1], j);
    }
  }

  /** The part of the state that decides whether a lease can still be used. */
  ghost predicate LeaseLost(q: Queue, lease: Token, now: int) {
    && lease.job in q.jobs
    && lease.fence <= q.jobs[lease.job].fence
    && !HoldsLease(q.jobs, lease, now)
  }

  /** Clock values of a run never fall, and all lie between the two instants. */
  ghost predicate ClockWithin(now: int, tt: seq<Step>, later: int) {
    && now <= later
    && (forall i | 0 <= i < |tt| :: now <= TimeOf(tt[i]) <= later)
    && (forall i, k | 0 <= i < k < |tt| :: TimeOf(tt[i]) <= TimeOf(tt[k]))
  }

  /** Abandoning an expired lease can move its expiry up to the present, but never past it. */
  lemma {:induction false} LostStaysLost(q: Queue, lease: Token, now: int, tt: seq<Step>, later: int)
    requires LeaseLost(q, lease, now) && ClockWithin(now, tt, later)
    ensures LeaseLost(Exec(q, tt), lease, later)
  {
    if tt != [] {
      var front, last := tt[..|tt| - 1], tt[|tt| - 1];
      LostStaysLost(q, lease, now, front, TimeOf(last));
    }
  }

  /**
   A stale lease never comes back: once a worker's lease fails the fencing test at some
   instant, it fails it at every later instant, whatever any worker does in between.
  */
  lemma StaleForever(ss: seq<Step>, tt: seq<Step>, lease: Token, now: int, later: int)
    requires LeaseLost(Exec(EMPTY, ss), lease, now) && ClockWithin(now, tt, later)
    ensures !HoldsLease(Exec(EMPTY, ss + tt).jobs, lease, later)
  {
    ExecConcat(EMPTY, ss, tt);
    LostStaysLost(Exec(EMPTY, ss), lease, now, tt, later);
  }

  /** The actions of a worker, each of which presents a fence. */
  predicate PresentsFence(a: Action) { !a.Expire? && !a.Lease? && !a.RequestCancel? }

  ghost predicate Superseded(q: Queue, j: JobId, fence: nat) {
    && j in q.jobs && fence <= q.jobs[j].fence
    && !(fence == q.jobs[j].fence && q.jobs[j].status.Leased?)
  }

  lemma {:induction false} SupersededStays(q: Queue, j: JobId, fence: nat, tt: seq<Step>)
    requires Superseded(q, j, fence)
    ensures Superseded(Exec(q, tt), j, fence)
  {
    if tt != [] {
      SupersededStays(q, j, fence, tt[..|tt| - 1]);
    }
  }

  /**
   Fencing: once a fence has been passed by a newer lease, or its lease has ended, every
   worker action that presents it changes nothing, then and ever after.
  */
  lemma StaleFenceIsInert(ss: seq<Step>, tt: seq<Step>, j: JobId, a: Action)
    requires PresentsFence(a) && Superseded(Exec(EMPTY, ss), j, a.fence)
    ensures Exec(EMPTY, ss + tt + [Act(j, a)]) == Exec(EMPTY, ss + tt)
  {
    ExecConcat(EMPTY, ss, tt);
    SupersededStays(Exec(EMPTY, ss), j, a.fence, tt);
    assert (ss + tt + [Act(j, a)])[..|ss + tt|] == ss + tt;
  }

  ghost predicate FenceOf(q: Queue, j: JobId, fence: nat, worker: string) {
    && j in q.jobs && fence <= q.jobs[j].fence
    && (fence == q.jobs[j].fence && q.jobs[j].status.Leased? ==> q.jobs[j].worker == Some(worker))
  }

  lemma {:induction false} FenceStaysWithWorker(q: Queue, j: JobId, fence: nat, worker: string, tt: seq<Step>)
    requires FenceOf(q, j, fence, worker)
    ensures FenceOf(Exec(q, tt), j, fence, worker)
  {
    if tt != [] {
      FenceStaysWithWorker(q, j, fence, worker, tt[..|tt| - 1]);
    }
  }

  /** Each (job, fence) belongs to one worker: two moments of a run at which it is leased name the same worker. */
  lemma FenceHasOneOwner(ss: seq<Step>, tt: seq<Step>, j: JobId)
    requires j in Exec(EMPTY, ss).jobs && j in Exec(EMPTY, ss + tt).jobs
    requires Exec(EMPTY, ss).jobs[j].status.Leased? && Exec(EMPTY, ss + tt).jobs[j].status.Leased?
    requires Exec(EMPTY, ss).jobs[j].fence == Exec(EMPTY, ss + tt).jobs[j].fence
    ensures Exec(EMPTY, ss).jobs[j].worker == Exec(EMPTY, ss + tt).jobs[j].worker
  {
    var q := Exec(EMPTY, ss);
    RunInv(ss);
    assert JobInv(q.jobs[j], History(q.outbox, j));
    ExecConcat(EMPTY, ss, tt);
    FenceStaysWithWorker(q, j, q.jobs[j].fence, q.jobs[j].worker.value, tt);
  }

  /** The writes of one job reach the database in fence order, and those of one fence come from one worker. */
  lemma WritesAreFenced(ss: seq<Step>, i: nat, k: nat)
    requires i < k < |Exec(EMPTY, ss).published|
    requires Exec(EMPTY, ss).published[i].job == Exec(EMPTY, ss).published[k].job
    ensures var p := Exec(EMPTY, ss).published;
            p[i].fence < p[k].fence || (p[i].fence == p[k].fence && p[i].worker == p[k].worker)
  {
    RunInv(ss);
  }

  function WritesOf(published: seq<Write>, j: JobId): seq<Write> {
    if published == [] then []
    else
      var last := published[|published| - 1];
      WritesOf(published[..|published| - 1], j) + (if last.job == j then [last] else [])
  }

  lemma WritesOfAppend(published: seq<Write>, w: Write, j: JobId)
    ensures WritesOf(published + [w], j) == WritesOf(published, j) + (if w.job == j then [w] else [])
  {
    assert (published + [w])[..|published|] == published;
  }

  ghost predicate Sealed(q: Queue, j: JobId) {
    j in q.jobs && (q.jobs[j].cancelRequested || q.jobs[j].status.Terminal())
  }

  lemma StepKeepsSeal(q: Queue, j: JobId, s: Step)
    requires Sealed(q, j)
    ensures Sealed(Next(q, s), j)
  {
  }

  lemma SealBlocksWrites(q: Queue, j: JobId, s: Step)
    requires Sealed(q, j)
    ensures WritesOf(Next(q, s).published, j) == WritesOf(q.published, j)
  {
    if s.Publish? && CanStep(q, s) {
      WritesOfAppend(q.published, Write(s.lease.job, s.lease.fence, s.lease.worker, s.data), j);
    }
  }

  lemma {:induction false} SealedStays(q: Queue, j: JobId, tt: seq<Step>)
    requires Sealed(q, j)
    ensures Sealed(Exec(q, tt), j)
    ensures WritesOf(Exec(q, tt).published, j) == WritesOf(q.published, j)
  {
    if tt != [] {
      var front := tt[..|tt| - 1];
      SealedStays(q, j, front);
      StepKeepsSeal(Exec(q, front), j, tt[|tt| - 1]);
      SealBlocksWrites(Exec(q, front), j, tt[|tt| - 1]);
    }
  }

  /**
   Once cancellation has been requested, or the job has ended, no write of any worker
   for that job ever reaches the database again, and the job never completes late.
  */
  lemma CancellationSeals(ss: seq<Step>, tt: seq<Step>, j: JobId)
    requires Sealed(Exec(EMPTY, ss), j)
    ensures WritesOf(Exec(EMPTY, ss + tt).published, j) == WritesOf(Exec(EMPTY, ss).published, j)
    ensures j in Exec(EMPTY, ss + tt).jobs
    ensures Exec(EMPTY, ss).jobs[j].cancelRequested ==> !Exec(EMPTY, ss + tt).jobs[j].status.Completed?
  {
    ExecConcat(EMPTY, ss, tt);
    SealedStays(Exec(EMPTY, ss), j, tt);
    CancelFlagStays(Exec(EMPTY, ss), j, tt);
    RunInv(ss + tt);
    var q := Exec(EMPTY, ss + tt);
    assert JobInv(q.jobs[j], History(q.outbox, j));
  }

  lemma {:induction false} CancelFlagStays(q: Queue, j: JobId, tt: seq<Step>)
    requires j in q.jobs
    ensures j in Exec(q, tt).jobs
    ensures q.jobs[j].cancelRequested ==> Exec(q, tt).jobs[j].cancelRequested
  {
    if tt != [] {
      CancelFlagStays(q, j, tt[..|tt| - 1]);
    }
  }
}
