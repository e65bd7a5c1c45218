/**
 The durable job queue of one workspace. Every method is one transaction; each one is
 proved to be a sequence of the atomic steps of JobRuns (recorded in trail), so the
 whole-run lemmas there speak about every object of this class at every moment.
*/
module Jobs {
  import opened Wrappers
  import opened JobRows
  import opened JobRuns

  datatype JobError =
    | InvalidCommand | InvalidKey | InvalidMaxAttempts | InvalidWorker | UntypedError
    | IdempotencyConflict | NotFound | StaleLease | WorkerCancelled

  datatype JobRecord = JobRecord(id: JobId, row: Row)

  /** The completion a publication body performs inside the publication's transaction. */
  datatype Finish = Finish(result: string, now: int)

  function ExpireRow(r: Row, now: int): Row {
    if Expired(r, now) then Apply(r, Expire(now)) else r
  }

  function ExpireAll(jobs: map<JobId, Row>, now: int): map<JobId, Row> {
    map j | j in jobs :: ExpireRow(jobs[j], now)
  }

  function ExpiryEvents(jobs: map<JobId, Row>, now: int, j: JobId): seq<Kind> {
    if j in jobs && Expired(jobs[j], now) then [StatusEvent(ExpireTo(jobs[j]))] else []
  }

  /** The order in which queued jobs are handed out. */
  predicate Before(jobs: map<JobId, Row>, i: JobId, j: JobId)
    requires i in jobs && j in jobs
  {
    jobs[i].created < jobs[j].created || (jobs[i].created == jobs[j].created && i <= j)
  }

  /** A queued job without a cancellation request, created before every other such job or with it under a smaller id. */
  ghost predicate IsNextJob(jobs: map<JobId, Row>, j: JobId) {
    && j in jobs && jobs[j].status.Queued? && !jobs[j].cancelRequested
    && forall i | i in jobs && jobs[i].status.Queued? && !jobs[i].cancelRequested && i != j ::
         jobs[j].created < jobs[i].created || (jobs[j].created == jobs[i].created && j < i)
  }

  /** What the expiry at an instant leaves of a row: a lease that has run out by then ends, anything else stays. */
  ghost predicate AfterExpiry(r: Row, t: Row, now: int) {
    if r.status.Leased? && r.expires.Some? && r.expires.value <= now then
      && t == r.(status := t.status, worker := None, expires := None, error := t.error, updated := now)
      && (t.status.Cancelled? <==> r.cancelRequested)
      && (t.status.Queued? <==> !r.cancelRequested && r.attempts < r.maxAttempts)
      && (t.status.Failed? <==> !r.cancelRequested && r.attempts == r.maxAttempts)
      && t.error == (if t.status.Failed? then Some("retry_exhausted") else None)
    else t == r
  }

  /** Nobody asked to cancel the job, and it is queued, or its lease has run out with attempts left. */
  ghost predicate CanBeLeased(r: Row, now: int) {
    && !r.cancelRequested
    && (r.status.Queued? || (r.status.Leased? && r.expires.Some? && r.expires.value <= now && r.attempts < r.maxAttempts))
  }

  lemma LeaseAfterExpiry(r: Row, worker: string, now: int, until: int)
    requires RowInv(r)
    ensures Claimable(ExpireRow(r, now)) <==> CanBeLeased(r, now)
    ensures CanBeLeased(r, now) ==> LeasedTo(ExpireRow(r, now), worker, now, until) == LeasedTo(r, worker, now, until)
  {
  }

  lemma ExpiryIs(r: Row, now: int)
    requires RowInv(r)
    ensures AfterExpiry(r, ExpireRow(r, now), now)
  {
  }

  /** What a lease makes of a row. */
  function LeasedTo(r: Row, worker: string, now: int, until: int): Row {
    Row(r.digest, r.key, Leased, r.attempts + 1, r.maxAttempts, r.fence + 1, Some(worker), Some(until),
        r.cancelRequested, r.result, r.error, r.created, now)
  }

  /** The lease is this worker's under this fence and has not run out. */
  ghost predicate IsCurrent(jobs: map<JobId, Row>, lease: Token, now: int) {
    && lease.job in jobs
    && var r := jobs[lease.job];
       && r.status.Leased? && r.fence == lease.fence && r.worker == Some(lease.worker)
       && r.expires.Some? && now < r.expires.value
  }

  /** Besides, no cancellation has been requested. */
  ghost predicate MayWrite(jobs: map<JobId, Row>, lease: Token, now: int) {
    IsCurrent(jobs, lease, now) && !jobs[lease.job].cancelRequested
  }

  ghost predicate CanPublish(jobs: map<JobId, Row>, lease: Token, completing: bool, finish: Option<Finish>, start: int, end: int) {
    && MayWrite(jobs, lease, start)
    && (if completing then finish.Some? && MayWrite(jobs, lease, finish.value.now)
        else finish.None? && MayWrite(jobs, lease, end))
  }

  /** Every job outside todo has its expiry event, and nothing else was appended. */
  ghost predicate ExpiriesLogged(outbox: seq<Event>, outbox0: seq<Event>, jobs0: map<JobId, Row>, now: int, todo: set<JobId>) {
    forall j :: History(outbox, j) == History(outbox0, j) + (if j in todo then [] else ExpiryEvents(jobs0, now, j))
  }

  lemma LogExpiry(outbox: seq<Event>, outbox0: seq<Event>, jobs0: map<JobId, Row>, now: int, todo: set<JobId>, j: JobId)
    requires ExpiriesLogged(outbox, outbox0, jobs0, now, todo)
    requires j in todo && j in jobs0 && Expired(jobs0[j], now)
    ensures ExpiriesLogged(outbox + Tag(j, Emits(jobs0[j], Expire(now)), now), outbox0, jobs0, now, todo - {j})
  {
    var kinds := Emits(jobs0[j], Expire(now));
    forall i ensures History(outbox + Tag(j, kinds, now), i) ==
                     History(outbox0, i) + (if i in todo - {j} then [] else ExpiryEvents(jobs0, now, i))
    {
      TagHistory(outbox, j, kinds, now, i);
    }
  }

  lemma NothingLoggedYet(outbox: seq<Event>, jobs: map<JobId, Row>, now: int, todo: set<JobId>)
    requires forall j | j in jobs && Expired(jobs[j], now) :: j in todo
    ensures ExpiriesLogged(outbox, outbox, jobs, now, todo)
    ensures forall j | j in jobs && j !in todo :: ExpireRow(jobs[j], now) == jobs[j]
  {
    forall j ensures History(outbox, j) == History(outbox, j) + (if j in todo then [] else ExpiryEvents(jobs, now, j)) {
      assert History(outbox, j) + [] == History(outbox, j);
    }
  }

  /** An expiry appends the new status of each job it ends and nothing else. */
  lemma ExpiriesAreStatuses(outbox: seq<Event>, outbox0: seq<Event>, jobs0: map<JobId, Row>, now: int)
    requires ExpiriesLogged(outbox, outbox0, jobs0, now, {})
    ensures forall j :: History(outbox, j) == History(outbox0, j) +
                        (if j in jobs0 && ExpireRow(jobs0[j], now) != jobs0[j] then [StatusEvent(ExpireRow(jobs0[j], now).status)] else [])
  {
  }

  lemma ReachableRow(ss: seq<Step>, j: JobId)
    requires j in Exec(EMPTY, ss).jobs
    ensures RowInv(Exec(EMPTY, ss).jobs[j])
  {
    RunInv(ss);
    assert JobInv(Exec(EMPTY, ss).jobs[j], History(Exec(EMPTY, ss).outbox, j));
  }

  class JobQueue {
    var jobs: map<JobId, Row>
    var outbox: seq<Event>
    var published: seq<Write>
    const leaseSeconds: int
    ghost var trail: seq<Step>

    function State(): Queue
      reads this
    {
      Queue(jobs, outbox, published)
    }

    ghost predicate Valid()
      reads this
    {
      leaseSeconds > 0 && State() == Exec(EMPTY, trail)
    }

    constructor (leaseSeconds: int)
      requires leaseSeconds > 0
      ensures Valid() && State() == EMPTY && this.leaseSeconds == leaseSeconds
    {
      this.leaseSeconds := leaseSeconds;
      jobs, outbox, published, trail := map[], [], [], [];
    }

    /** One guarded UPDATE and the outbox row that goes with it; changed is its row count. */
    method Update(j: JobId, a: Action) returns (changed: bool)
      requires Valid()
      modifies this
      ensures Valid() && trail == old(trail) + [Act(j, a)]
      ensures changed == (j in old(jobs) && Enabled(old(jobs)[j], a))
      ensures State() == Next(old(State()), Act(j, a))
    {
      changed := j in jobs && Enabled(jobs[j], a);
      if changed {
        outbox := outbox + Tag(j, Emits(jobs[j], a), a.now);
        jobs := jobs[j := Apply(jobs[j], a)];
      }
      trail := trail + [Act(j, a)];
      assert trail[..|trail| - 1] == old(trail);
    }

    method FindKey(key: string) returns (found: Option<JobId>)
      ensures found.Some? ==> found.value in jobs && jobs[found.value].key == key
      ensures found.None? ==> !KeyTaken(jobs, key)
    {
      var todo := jobs.Keys;
      while todo != {}
        invariant todo <= jobs.Keys
        invariant forall j | j in jobs && j !in todo :: jobs[j].key != key
        decreases todo
      {
        var j :| j in todo;
        if jobs[j].key == key {
          return Some(j);
        }
        todo := todo - {j};
      }
      found := None;
    }

    /** Inserting is idempotent per key; the id is freshly drawn. */
    method Enqueue(command: Command, key: string, maxAttempts: int, id: JobId, now: int)
      returns (r: Result<JobRecord, JobError>)
      requires Valid() && id !in jobs
      modifies this
      ensures Valid() && old(trail) <= trail && published == old(published)
      ensures r == Failure(InvalidCommand) <==> |command| == 0
      ensures r == Failure(InvalidKey) <==> |command| > 0 && !(1 <= |key| <= 255)
      ensures r == Failure(InvalidMaxAttempts) <==> |command| > 0 && 1 <= |key| <= 255 && !(1 <= maxAttempts <= 20)
      ensures r == Failure(IdempotencyConflict) <==>
                && |command| > 0 && 1 <= |key| <= 255 && 1 <= maxAttempts <= 20
                && exists j | j in old(jobs) :: old(jobs)[j].key == key && old(jobs)[j].digest != command
      ensures r.Failure? ==> State() == old(State())
      ensures r.Success? ==> r.value.row.key == key && r.value.row.digest == command
      ensures r.Success? && KeyTaken(old(jobs), key) ==>
                State() == old(State()) && r.value.id in jobs && jobs[r.value.id] == r.value.row
      ensures r.Success? && !KeyTaken(old(jobs), key) ==>
                && r.value == JobRecord(id, Row(command, key, Queued, 0, maxAttempts, 0, None, None, false, None, None, now, now))
                && jobs == old(jobs)[id := r.value.row] && outbox == old(outbox) + [Event(id, WasQueued, now)]
    {
      RunInv(trail);
      if |command| == 0 {
        return Failure(InvalidCommand);
      }
      if !(1 <= |key| <= 255) {
        return Failure(InvalidKey);
      }
      if !(1 <= maxAttempts <= 20) {
        return Failure(InvalidMaxAttempts);
      }
      var existing := FindKey(key);
      if existing.Some? {
        var j := existing.value;
        if jobs[j].digest != command {
          return Failure(IdempotencyConflict);
        }
        return Success(JobRecord(j, jobs[j]));
      }
      var row := NewRow(command, key, maxAttempts, now);
      jobs := jobs[id := row];
      outbox := outbox + [Event(id, WasQueued, now)];
      trail := trail + [Insert(id, command, key, maxAttempts, now)];
      assert trail[..|trail| - 1] == old(trail);
      r := Success(JobRecord(id, row));
    }

    method ExpireOne(j: JobId, now: int)
      requires Valid() && j in jobs && Expired(jobs[j], now)
      modifies this
      ensures Valid() && trail == old(trail) + [Act(j, Expire(now))] && published == old(published)
      ensures jobs == old(jobs)[j := ExpireRow(old(jobs)[j], now)]
      ensures outbox == old(outbox) + Tag(j, Emits(old(jobs)[j], Expire(now)), now)
    {
      hide Apply, Emits, Exec;
      var changed := Update(j, Expire(now));
    }

    /** Ends every lease that has run out, in no particular order. */
    method ExpireAndCancel(now: int)
      requires Valid()
      modifies this
      ensures Valid() && old(trail) <= trail && published == old(published)
      ensures jobs == ExpireAll(old(jobs), now)
      ensures jobs.Keys == old(jobs).Keys && forall j | j in jobs :: AfterExpiry(old(jobs)[j], jobs[j], now)
      ensures forall j :: History(outbox, j) == History(old(outbox), j) +
                          (if j in jobs && jobs[j] != old(jobs)[j] then [StatusEvent(jobs[j].status)] else [])
      ensures old(outbox) <= outbox
      ensures ExpiriesLogged(outbox, old(outbox), old(jobs), now, {})
    {
      hide Apply, Emits, Exec, AfterExpiry, ExpiriesLogged, ExpireRow, RowInv;
      ghost var jobs0, outbox0, trail0 := jobs, outbox, trail;
      assert jobs0 == Exec(EMPTY, trail0).jobs;
      var todo := set j | j in jobs && Expired(jobs[j], now);
      NothingLoggedYet(outbox, jobs, now, todo);
      ghost var all := todo;
      hide Expired;
      while todo != {}
        invariant Valid() && trail0 <= trail && published == old(published)
        invariant todo <= all && jobs.Keys == jobs0.Keys
        invariant forall j | j in jobs :: jobs[j] == if j in todo then jobs0[j] else ExpireRow(jobs0[j], now)
        invariant outbox0 <= outbox
        invariant ExpiriesLogged(outbox, outbox0, jobs0, now, todo)
        decreases todo
      {
        var j :| j in todo;
        LogExpiry(outbox, outbox0, jobs0, now, todo, j);
        ExpireOne(j, now);
        todo := todo - {j};
      }
      assert jobs == ExpireAll(jobs0, now);
      ExpiriesAreStatuses(outbox, outbox0, jobs0, now);
      forall j | j in jobs ensures AfterExpiry(jobs0[j], jobs[j], now) {
        ReachableRow(trail0, j);
        ExpiryIs(jobs0[j], now);
      }
    }

    method FindNext() returns (next: Option<JobId>)
      ensures next.None? <==> forall j | j in jobs :: !jobs[j].status.Queued? || jobs[j].cancelRequested
      ensures next.Some? ==> IsNextJob(jobs, next.value)
    {
      var todo := set j | j in jobs && Claimable(jobs[j]);
      ghost var seen: set<JobId> := {};
      next := None;
      while todo != {}
        invariant forall j :: j in seen + todo <==> j in jobs && Claimable(jobs[j])
        invariant next.None? <==> seen == {}
        invariant next.Some? ==> next.value in seen && forall i | i in seen :: Before(jobs, next.value, i)
        decreases todo
      {
        var j :| j in todo;
        if next.None? || !Before(jobs, next.value, j) {
          next := Some(j);
        }
        todo, seen := todo - {j}, seen + {j};
      }
      assert forall j | j in jobs && Claimable(jobs[j]) :: j in seen + todo;
    }

    /** The guarded UPDATE that leases one job, and its outbox row. */
    method TakeLease(j: JobId, worker: string, now: int) returns (changed: bool)
      requires Valid()
      modifies this
      ensures Valid() && old(trail) <= trail && published == old(published)
      ensures changed == (j in old(jobs) && Claimable(old(jobs)[j]))
      ensures changed ==>
                && jobs == old(jobs)[j := LeasedTo(old(jobs)[j], worker, now, now + leaseSeconds)]
                && outbox == old(outbox) + [Event(j, WasLeased, now)]
      ensures !changed ==> jobs == old(jobs) && outbox == old(outbox)
    {
      hide Exec;
      changed := Update(j, Action.Lease(worker, now, now + leaseSeconds));
    }

    /** Expires stale leases, then leases the oldest queued job to the worker under the next fence. */
    method Claim(worker: string, now: int) returns (r: Result<Option<JobRecord>, JobError>)
      requires Valid()
      modifies this
      ensures Valid() && old(trail) <= trail && published == old(published)
      ensures r.Failure? <==> worker == ""
      ensures r.Failure? ==> r.error == InvalidWorker && State() == old(State())
      ensures r.Success? ==>
                var expired := ExpireAll(old(jobs), now);
                && (forall j | j in expired :: AfterExpiry(old(jobs)[j], expired[j], now))
                && match r.value
                case None =>
                  && jobs == expired && (forall j | j in expired :: !expired[j].status.Queued? || expired[j].cancelRequested)
                  && ExpiriesLogged(outbox, old(outbox), old(jobs), now, {})
                case Some(job) =>
                  && IsNextJob(expired, job.id)
                  && job.row == LeasedTo(expired[job.id], worker, now, now + leaseSeconds)
                  && jobs == expired[job.id := job.row]
                  && (exists mid :: outbox == mid + [Event(job.id, WasLeased, now)]
                                    && ExpiriesLogged(mid, old(outbox), old(jobs), now, {}))
                  && MayWrite(jobs, Token(job.id, job.row.fence, worker), now)
    {
      if worker == "" {
        return Failure(InvalidWorker);
      }
      ExpireAndCancel(now);
      var next := FindNext();
      if next.None? {
        return Success(None);
      }
      var j := next.value;
      ghost var mid := outbox;
      var changed := TakeLease(j, worker, now);
      r := Success(Some(JobRecord(j, jobs[j])));
    }

    /** Leases this job or none: no other queued job is touched. */
    method ClaimSpecific(j: JobId, worker: string, now: int) returns (r: Result<Option<JobRecord>, JobError>)
      requires Valid()
      modifies this
      ensures Valid() && old(trail) <= trail && published == old(published)
      ensures r.Failure? <==> worker == ""
      ensures r.Failure? ==> r.error == InvalidWorker && State() == old(State())
      ensures r.Success? ==>
                var expired := ExpireAll(old(jobs), now);
                && (forall i | i in expired :: AfterExpiry(old(jobs)[i], expired[i], now))
                && (r.value.Some? <==> j in old(jobs) && CanBeLeased(old(jobs)[j], now))
                && (r.value.None? ==> jobs == expired && ExpiriesLogged(outbox, old(outbox), old(jobs), now, {}))
                && (r.value.Some? ==>
                      && r.value.value.id == j
                      && (exists mid :: outbox == mid + [Event(j, WasLeased, now)]
                                        && ExpiriesLogged(mid, old(outbox), old(jobs), now, {}))
                      && r.value.value.row == LeasedTo(old(jobs)[j], worker, now, now + leaseSeconds)
                      && jobs == expired[j := r.value.value.row])
    {
      if worker == "" {
        return Failure(InvalidWorker);
      }
      if j in jobs {
        ReachableRow(trail, j);
        LeaseAfterExpiry(jobs[j], worker, now, now + leaseSeconds);
      }
      hide Exec, RowInv, LeasedTo, CanBeLeased, ExpireRow, AfterExpiry, ExpiriesLogged, Claimable;
      ExpireAndCancel(now);
      ghost var mid := outbox;
      var changed := TakeLease(j, worker, now);
      if !changed {
        return Success(None);
      }
      r := Success(Some(JobRecord(j, jobs[j])));
    }

    /** The fencing test before a worker-owned database effect. */
    method AssertActive(lease: Token, now: int) returns (r: Result<JobRecord, JobError>)
      ensures r.Success? <==> MayWrite(jobs, lease, now)
      ensures r.Success? ==> r.value == JobRecord(lease.job, jobs[lease.job])
      ensures r.Failure? ==> r.error == if IsCurrent(jobs, lease, now) then WorkerCancelled else StaleLease
    {
      if !HoldsLease(jobs, lease, now) {
        return Failure(StaleLease);
      }
      if jobs[lease.job].cancelRequested {
        return Failure(WorkerCancelled);
      }
      r := Success(JobRecord(lease.job, jobs[lease.job]));
    }

    /**
     A short transaction that publishes data under the lease; its body may also complete
     the job. The fencing test runs when it opens and again when it commits.
    */
    method Publication(lease: Token, completing: bool, data: string, finish: Option<Finish>, start: int, end: int)
      returns (r: Result<(), JobError>)
      requires Valid()
      modifies this
      ensures Valid() && old(trail) <= trail
      ensures r.Success? <==> CanPublish(old(jobs), lease, completing, finish, start, end)
      ensures r.Success? ==>
                published == old(published) + [Write(lease.job, lease.fence, lease.worker, data)]
      ensures r.Success? && !completing ==> jobs == old(jobs) && outbox == old(outbox)
      ensures r.Success? && completing ==>
                && jobs == old(jobs)[lease.job := Apply(old(jobs)[lease.job],
                                                        Action.Complete(lease.fence, finish.value.now, finish.value.result))]
                && outbox == old(outbox) + [Event(lease.job, WasCompleted, finish.value.now)]
      ensures r.Failure? ==> State() == old(State())
    {
      var atOpen := AssertActive(lease, start);
      if atOpen.Failure? {
        return Failure(atOpen.error);
      }
      var jobs0, outbox0, published0 := jobs, outbox, published;
      ghost var trail0 := trail;
      published := published + [Write(lease.job, lease.fence, lease.worker, data)];
      trail := trail + [Publish(lease, start, data)];
      assert trail[..|trail| - 1] == old(trail);
      var failure: Option<JobError> := None;
      if finish.Some? {
        var done := Complete(lease.job, lease.fence, finish.value.result, finish.value.now);
        if done.Failure? {
          failure := Some(done.error);
        }
      }
      if failure.None? {
        if completing {
          if !jobs[lease.job].status.Completed? || jobs[lease.job].fence != lease.fence {
            failure := Some(StaleLease);
          }
        } else {
          var atClose := AssertActive(lease, end);
          if atClose.Failure? {
            failure := Some(atClose.error);
          }
        }
      }
      if failure.Some? {
        jobs, outbox, published := jobs0, outbox0, published0;
        trail := trail0;
        return Failure(failure.value);
      }
      r := Success(());
    }

    method Heartbeat(j: JobId, fence: nat, now: int) returns (r: Result<JobRecord, JobError>)
      requires Valid()
      modifies this
      ensures Valid() && old(trail) <= trail && published == old(published)
      ensures r.Success? <==>
                && j in old(jobs)
                && var row := old(jobs)[j];
                   row.status.Leased? && row.fence == fence && row.expires.Some? && now < row.expires.value && !row.cancelRequested
      ensures r.Failure? ==> r.error == StaleLease && State() == old(State())
      ensures r.Success? ==>
                && r.value == JobRecord(j, old(jobs)[j].(expires := Some(now + leaseSeconds), updated := now))
                && jobs == old(jobs)[j := r.value.row] && outbox == old(outbox)
    {
      var changed := Update(j, Action.Heartbeat(fence, now, now + leaseSeconds));
      if !changed {
        return Failure(StaleLease);
      }
      r := Success(JobRecord(j, jobs[j]));
    }

    method Complete(j: JobId, fence: nat, result: string, now: int) returns (r: Result<JobRecord, JobError>)
      requires Valid()
      modifies this
      ensures Valid() && old(trail) <= trail && published == old(published)
      ensures r.Success? <==>
                && j in old(jobs)
                && var row := old(jobs)[j];
                   row.status.Leased? && row.fence == fence && row.expires.Some? && now < row.expires.value && !row.cancelRequested
      ensures r.Failure? ==> r.error == StaleLease && State() == old(State())
      ensures r.Success? ==>
                && r.value == JobRecord(j, old(jobs)[j].(status := Completed, result := Some(result),
                                                         worker := None, expires := None, updated := now))
                && jobs == old(jobs)[j := r.value.row] && outbox == old(outbox) + [Event(j, WasCompleted, now)]
    {
      var changed := Update(j, Action.Complete(fence, now, result));
      if !changed {
        return Failure(StaleLease);
      }
      r := Success(JobRecord(j, jobs[j]));
    }

    /** A worker failure lands with a typed error; code is absent when the error carries none. */
    method Fail(j: JobId, fence: nat, code: Option<string>, now: int) returns (r: Result<JobRecord, JobError>)
      requires Valid()
      modifies this
      ensures Valid() && old(trail) <= trail && published == old(published)
      ensures r == Failure(UntypedError) <==> code.None?
      ensures r.Success? <==>
                && code.Some? && j in old(jobs)
                && var row := old(jobs)[j];
                   row.status.Leased? && row.fence == fence && row.expires.Some? && now < row.expires.value && !row.cancelRequested
      ensures r.Failure? ==> State() == old(State())
      ensures r.Success? ==>
                && r.value == JobRecord(j, old(jobs)[j].(status := Failed, error := code,
                                                         worker := None, expires := None, updated := now))
                && jobs == old(jobs)[j := r.value.row] && outbox == old(outbox) + [Event(j, WasFailed, now)]
    {
      if code.None? {
        return Failure(UntypedError);
      }
      var changed := Update(j, Action.Fail(fence, now, code.value));
      if !changed {
        return Failure(StaleLease);
      }
      r := Success(JobRecord(j, jobs[j]));
    }

    /** Gives the lease up at once. The guard does not look at the expiry, so an expired lease can be abandoned too. */
    method Abandon(j: JobId, fence: nat, now: int) returns (r: Result<JobRecord, JobError>)
      requires Valid()
      modifies this
      ensures Valid() && old(trail) <= trail && published == old(published)
      ensures r.Success? <==> j in old(jobs) && old(jobs)[j].status.Leased? && old(jobs)[j].fence == fence
      ensures r.Failure? ==> r.error == StaleLease && State() == old(State())
      ensures r.Success? ==>
                && r.value == JobRecord(j, old(jobs)[j].(expires := Some(now), updated := now))
                && jobs == old(jobs)[j := r.value.row] && outbox == old(outbox)
                && Expired(jobs[j], now)
    {
      var changed := Update(j, Action.Abandon(fence, now));
      if !changed {
        return Failure(StaleLease);
      }
      r := Success(JobRecord(j, jobs[j]));
    }

    method AcknowledgeCancel(j: JobId, fence: nat, now: int) returns (r: Result<JobRecord, JobError>)
      requires Valid()
      modifies this
      ensures Valid() && old(trail) <= trail && published == old(published)
      ensures r.Success? <==>
                && j in old(jobs)
                && var row := old(jobs)[j];
                   row.status.Leased? && row.fence == fence && row.cancelRequested
      ensures r.Failure? ==> r.error == StaleLease && State() == old(State())
      ensures r.Success? ==>
                && r.value == JobRecord(j, old(jobs)[j].(status := Cancelled, worker := None, expires := None, updated := now))
                && jobs == old(jobs)[j := r.value.row] && outbox == old(outbox) + [Event(j, WasCancelled, now)]
    {
      var changed := Update(j, Action.AcknowledgeCancel(fence, now));
      if !changed {
        return Failure(StaleLease);
      }
      r := Success(JobRecord(j, jobs[j]));
    }

    /** A queued job is cancelled on the spot; a leased one only carries the request; an ended one is left alone. */
    method RequestCancel(j: JobId, now: int) returns (r: Result<JobRecord, JobError>)
      requires Valid()
      modifies this
      ensures Valid() && old(trail) <= trail && published == old(published)
      ensures r.Failure? <==> j !in old(jobs)
      ensures r.Failure? ==> r.error == NotFound && State() == old(State())
      ensures r.Success? ==>
                && j in jobs && r.value == JobRecord(j, jobs[j])
                && forall i | i in jobs && i != j :: i in old(jobs) && jobs[i] == old(jobs)[i]
      ensures r.Success? && old(jobs)[j].status.Terminal() ==> State() == old(State())
      ensures r.Success? && old(jobs)[j].status.Queued? ==>
                && jobs == old(jobs)[j := old(jobs)[j].(status := Cancelled, cancelRequested := true, updated := now)]
                && outbox == old(outbox) + [Event(j, WasCancelled, now)]
      ensures r.Success? && old(jobs)[j].status.Leased? ==>
                && jobs == old(jobs)[j := old(jobs)[j].(cancelRequested := true, updated := now)]
                && outbox == old(outbox) + [Event(j, CancelRequested, now)]
    {
      if j !in jobs {
        return Failure(NotFound);
      }
      if jobs[j].status.Terminal() {
        return Success(JobRecord(j, jobs[j]));
      }
      ReachableRow(trail, j);
      var changed := Update(j, Action.RequestCancel(now));
      r := Success(JobRecord(j, jobs[j]));
    }
  }
}
