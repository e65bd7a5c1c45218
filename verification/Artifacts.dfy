/** The artifact store: each operation as the steps it performs, recorded in the trail of ArtifactRuns. */
module Artifacts {
  import opened Wrappers
  import opened ArtifactRuns

  datatype ArtifactError = NoBytes | BadMediaType | ChecksumMismatch | Interrupted

  predicate IsMediaChar(c: char) {
    'A' <= c <= 'Z' || 'a' <= c <= 'z' || '0' <= c <= '9' || c in "!#$&^_.+-"
  }

  /** Two non-empty parts of media characters around one slash. */
  predicate IsMediaType(m: string) {
    exists i | 0 < i < |m| - 1 :: m[i] == '/' && forall k | 0 <= k < |m| && k != i :: IsMediaChar(m[k])
  }

  /** The media characters by their ASCII codes: digits, letters and nine signs. */
  lemma MediaCharsAre(c: char)
    ensures IsMediaChar(c) <==>
              var n := c as int;
              48 <= n <= 57 || 65 <= n <= 90 || 97 <= n <= 122 || n in {33, 35, 36, 38, 43, 45, 46, 94, 95}
  {
  }

  ghost predicate IsMediaPart(part: string) { part != "" && forall c | c in part :: IsMediaChar(c) }

  /** A media type is two parts of media characters with a slash between. */
  lemma MediaTypesAre(m: string)
    ensures IsMediaType(m) <==> exists left, right | IsMediaPart(left) && IsMediaPart(right) :: m == left + "/" + right
  {
    hide IsMediaChar;
    if IsMediaType(m) {
      var i :| 0 < i < |m| - 1 && m[i] == '/' && forall k | 0 <= k < |m| && k != i :: IsMediaChar(m[k]);
      assert IsMediaPart(m[..i]) && IsMediaPart(m[i + 1..]) && m == m[..i] + "/" + m[i + 1..];
    }
    if left, right :| IsMediaPart(left) && IsMediaPart(right) && m == left + "/" + right {
      PartsMakeType(left, right);
    }
  }

  lemma PartsMakeType(left: string, right: string)
    requires IsMediaPart(left) && IsMediaPart(right)
    ensures IsMediaType(left + "/" + right)
  {
    var m, i := left + "/" + right, |left|;
    hide IsMediaChar;
    forall k | 0 <= k < |m| && k != i ensures IsMediaChar(m[k]) {
      if k < i {
        assert m[k] == left[k] && left[k] in left;
      } else {
        assert m[k] == right[k - i - 1] && right[k - i - 1] in right;
      }
    }
    assert m[i] == '/';
  }

  /** How far a put gets before an exception, if one strikes. */
  datatype Fault = NoFault | BeforeStage | BeforePublish | BeforeCommit

  function Removable(s: State, committed: set<Id>): set<Name> { set name | name in s.files && Uncommitted(committed, name) }

  /** Without the removable files exactly the files of the rows remain. */
  lemma RemainingAre(s: State, committed: set<Id>)
    requires Inv(s) && committed == s.rows.Keys
    ensures s.files.Keys - Removable(s, committed) == PublishedFiles(s.rows)
    ensures Removable(s, committed) == s.files.Keys - PublishedFiles(s.rows)
  {
    forall name ensures name in s.files.Keys - Removable(s, committed) <==> name in PublishedFiles(s.rows) {
      if name in s.files && !Uncommitted(committed, name) {
        assert name == Final(name.id);
      }
    }
  }

  /** The state after those of the steps, in their order, that can be taken and are not the holder's. */
  function WithOthers(s: State, holder: Option<Pid>, steps: seq<Step>): State {
    if steps == [] then s
    else
      var t, step := WithOthers(s, holder, steps[..|steps| - 1]), steps[|steps| - 1];
      if Can(t, step) && (holder.None? || Foreign(step, holder.value)) then Do(t, step) else t
  }

  /** The bytes of a file, if they are those its row records. */
  method Checked(bytes: Bytes, row: Row) returns (r: Reading)
    ensures r == Data(bytes) <==> |bytes| == row.size && Sha(bytes) == row.digest
    ensures r == Data(bytes) || r == Corrupt
  {
    if |bytes| != row.size || Sha(bytes) != row.digest {
      return Corrupt;
    }
    r := Data(bytes);
  }

  /** The process that holds the lock after cleaning, if this is one, still does. */
  ghost predicate LockKept(holder: Option<Pid>, s: State, t: State) {
    forall committed | holder.Some? && Cleaned(s, holder.value, committed) :: Cleaned(t, holder.value, committed)
  }

  lemma LockStays(holder: Option<Pid>, s: State, step: Step)
    requires Inv(s) && Can(s, step) && (holder.None? || Foreign(step, holder.value))
    ensures LockKept(holder, s, Do(s, step))
  {
    forall committed | holder.Some? && Cleaned(s, holder.value, committed)
      ensures Cleaned(Do(s, step), holder.value, committed)
    {
      CleanedStays(s, step, holder.value, committed);
    }
  }

  /** What a reader gets that looks up the row at moment m of the trail and opens the file at moment n. */
  ghost function ReadAt(trail: seq<Step>, m: nat, n: nat, id: Id): Reading
    requires IsRun(EMPTY, trail) && m <= n <= |trail|
  {
    Read(At(EMPTY, trail, m), At(EMPTY, trail, n), id)
  }

  /** Each listed artifact is read after moment k, and those reported are exactly those that were not got. */
  ghost predicate Reports(trail: seq<Step>, k: nat, listed: set<Id>, unavailable: set<Id>, looked: map<Id, nat>, fetched: map<Id, nat>)
    requires IsRun(EMPTY, trail)
  {
    && looked.Keys == fetched.Keys == listed && unavailable <= listed
    && (forall id | id in listed :: k <= looked[id] <= fetched[id] <= |trail|)
    && (forall id | id in listed :: id in unavailable <==> !ReadAt(trail, looked[id], fetched[id], id).Data?)
  }

  lemma ReportsStay(past: seq<Step>, trail: seq<Step>, k: nat, listed: set<Id>, unavailable: set<Id>,
      looked: map<Id, nat>, fetched: map<Id, nat>)
    requires IsRun(EMPTY, past) && IsRun(EMPTY, trail) && past <= trail
    requires Reports(past, k, listed, unavailable, looked, fetched)
    ensures Reports(trail, k, listed, unavailable, looked, fetched)
  {
    MomentsStay(EMPTY, past, trail);
    hide At, Read, IsRun;
  }

  lemma ReportsGrow(trail: seq<Step>, k: nat, listed: set<Id>, unavailable: set<Id>,
      looked: map<Id, nat>, fetched: map<Id, nat>, id: Id, m: nat, n: nat)
    requires IsRun(EMPTY, trail) && k <= m <= n <= |trail| && id !in listed
    requires Reports(trail, k, listed, unavailable, looked, fetched)
    ensures var missed := if ReadAt(trail, m, n, id).Data? then {} else {id};
            Reports(trail, k, listed + {id}, unavailable + missed, looked[id := m], fetched[id := n])
  {
    hide ReadAt, IsRun;
  }

  lemma MissedIsDeleted(past: seq<Step>, trail: seq<Step>, m: nat, n: nat, id: Id)
    requires IsRun(EMPTY, past) && IsRun(EMPTY, trail) && past <= trail && |past| <= m <= n <= |trail|
    requires id in Exec(EMPTY, past).rows && !ReadAt(trail, m, n, id).Data?
    ensures id !in Exec(EMPTY, trail).rows && id !in Exec(EMPTY, past).refs
  {
    hide At, Read, IsRun, Exec;
    MomentsStay(EMPTY, past, trail);
    UnreadableIsDeleted(EMPTY, trail, |past|, m, n, id);
  }

  /** What is reported has been deleted when the run has gone on, and was not referenced when recovery began. */
  lemma ReportedAreDeleted(past: seq<Step>, read: seq<Step>, trail: seq<Step>, k: nat, listed: set<Id>,
      unavailable: set<Id>, looked: map<Id, nat>, fetched: map<Id, nat>)
    requires IsRun(EMPTY, past) && IsRun(EMPTY, read) && IsRun(EMPTY, trail) && past <= read <= trail && |past| <= k
    requires Reports(read, k, listed, unavailable, looked, fetched) && listed <= Exec(EMPTY, past).rows.Keys
    ensures Reports(trail, |past|, listed, unavailable, looked, fetched)
    ensures unavailable <= listed - Exec(EMPTY, trail).rows.Keys - Exec(EMPTY, past).refs
  {
    hide ReadAt, IsRun, Exec;
    ReportsStay(read, trail, k, listed, unavailable, looked, fetched);
    forall id | id in unavailable ensures id !in Exec(EMPTY, trail).rows && id !in Exec(EMPTY, past).refs {
      MissedIsDeleted(past, trail, looked[id], fetched[id], id);
    }
  }

  class ArtifactStore {
    var now: State
    ghost var trail: seq<Step>

    ghost predicate Valid()
      reads this
    {
      IsRun(EMPTY, trail) && now == Exec(EMPTY, trail)
    }

    constructor ()
      ensures Valid() && now == EMPTY
    {
      now, trail := EMPTY, [];
    }

    lemma Invariant()
      requires Valid()
      ensures Inv(now)
    {
      CrashSafety(EMPTY, trail);
    }

    method Take(step: Step)
      requires Valid() && Can(now, step)
      modifies this
      ensures Valid() && now == Do(old(now), step) && trail == old(trail) + [step]
    {
      hide Can, Do;
      now := Do(now, step);
      trail := trail + [step];
      assert trail[..|trail| - 1] == old(trail);
    }

    /** Deletes the stage and the published file, and passes the exception on. */
    method Abandon(pid: Pid, id: Id, data: Bytes)
      requires Valid() && IsPutting(now, pid) && now.procs[pid].id == id
      modifies this
      ensures Valid() && old(trail) <= trail
      ensures now == old(now).(files := old(now).files - {Stage(id), Final(id)}, procs := Without(old(now).procs, pid))
    {
      hide Exec, IsRun;
      Take(Fail(pid));
    }

    /** The stage is renamed to the published file and then the row is committed, unless an exception strikes. */
    method PublishAndCommit(pid: Pid, id: Id, data: Bytes, fault: Fault) returns (done: bool)
      requires Valid() && pid in now.procs && now.procs[pid] == Putting(id, data, false)
      requires Stage(id) in now.files && now.files[Stage(id)] == data
      modifies this
      ensures Valid() && old(trail) <= trail && done == !fault.BeforeCommit?
      ensures done ==> now == old(now).(files := (old(now).files - {Stage(id)})[Final(id) := data],
                                        rows := old(now).rows[id := Row(Sha(data), |data|)], procs := Without(old(now).procs, pid))
      ensures !done ==> now == old(now).(files := old(now).files - {Stage(id), Final(id)}, procs := Without(old(now).procs, pid))
    {
      hide Exec, IsRun;
      Take(Publish(pid));
      assert now.procs[pid] == Putting(id, data, true);
      if fault.BeforeCommit? {
        Abandon(pid, id, data);
        return false;
      }
      Take(Commit(pid));
      done := true;
    }

    /** The locked part of a put: write the stage, verify it, publish and commit. */
    method StageAndPublish(pid: Pid, id: Id, data: Bytes, written: Bytes, fault: Fault) returns (r: Result<Row, ArtifactError>)
      requires Valid() && pid in now.procs && now.procs[pid] == Putting(id, data, false)
      requires Stage(id) !in now.files && Final(id) !in now.files
      modifies this
      ensures Valid() && old(trail) <= trail
      ensures r == if fault.BeforeStage? || fault.BeforePublish? then Failure(Interrupted)
                   else if written != data then Failure(ChecksumMismatch)
                   else if fault.BeforeCommit? then Failure(Interrupted)
                   else Success(Row(Sha(data), |data|))
      ensures now == old(now).(
                files := if r.Success? then old(now).files[Final(id) := data] else old(now).files,
                rows := if r.Success? then old(now).rows[id := r.value] else old(now).rows,
                procs := Without(old(now).procs, pid))
    {
      hide Exec, IsRun;
      ghost var files := now.files;
      if fault.BeforeStage? {
        Abandon(pid, id, data);
        return Failure(Interrupted);
      }
      Take(Write(pid, written));
      assert now.files == files[Stage(id) := written];
      assert now.files - {Stage(id), Final(id)} == files && (now.files - {Stage(id)})[Final(id) := data] == files[Final(id) := data];
      if fault.BeforePublish? || Sha(written) != Sha(data) {
        Abandon(pid, id, data);
        return Failure(if fault.BeforePublish? then Interrupted else ChecksumMismatch);
      }
      var done := PublishAndCommit(pid, id, data, fault);
      r := if done then Success(Row(Sha(data), |data|)) else Failure(Interrupted);
    }

    lemma FreshFiles(id: Id)
      requires Valid() && id !in now.drawn
      ensures Stage(id) !in now.files && Final(id) !in now.files
    {
      Invariant();
    }

    /**
     Stages, verifies and publishes the bytes, then commits the row. The id is freshly drawn; written
     is what the stage holds after writing, and fault where an exception strikes.
    */
    method Put(pid: Pid, id: Id, data: Bytes, mediaType: string, written: Bytes, fault: Fault)
      returns (r: Result<Row, ArtifactError>)
      requires Valid() && LockFree(now) && pid !in now.procs && id !in now.drawn
      modifies this
      ensures Valid() && old(trail) <= trail && now.procs == old(now).procs && now.refs == old(now).refs
      ensures r == Failure(NoBytes) <==> data == []
      ensures r == Failure(BadMediaType) <==> data != [] && !IsMediaType(mediaType)
      ensures r.Success? <==> data != [] && IsMediaType(mediaType) && fault.NoFault? && written == data
      ensures r.Success? ==>
                && r.value == Row(Sha(data), |data|) && now.rows == old(now).rows[id := r.value]
                && now.files == old(now).files[Final(id) := data]
      ensures r.Failure? ==> now.rows == old(now).rows && now.files == old(now).files
    {
      hide Exec, IsRun, IsMediaType;
      if data == [] {
        return Failure(NoBytes);
      }
      if !IsMediaType(mediaType) {
        return Failure(BadMediaType);
      }
      FreshFiles(id);
      Take(BeginPut(pid, id, data));
      r := StageAndPublish(pid, id, data, written, fault);
    }

    /** Lets other processes take the given steps, as far as they can; the holder of the lock, if any, takes none. */
    method RunOthers(holder: Option<Pid>, steps: seq<Step>)
      requires Valid()
      modifies this
      ensures Valid() && old(trail) <= trail && (steps == [] ==> now == old(now) && trail == old(trail))
      ensures LockKept(holder, old(now), now) && now == WithOthers(old(now), holder, steps)
    {
      hide Can, Do, Exec, IsRun, Cleaned;
      for k := 0 to |steps|
        invariant Valid() && old(trail) <= trail && (k == 0 ==> now == old(now) && trail == old(trail))
        invariant LockKept(holder, old(now), now) && now == WithOthers(old(now), holder, steps[..k])
      {
        assert steps[..k + 1][..k] == steps[..k];
        if Can(now, steps[k]) && (holder.None? || Foreign(steps[k], holder.value)) {
          Invariant();
          LockStays(holder, now, steps[k]);
          Take(steps[k]);
        }
      }
      assert steps[..|steps|] == steps;
    }

    /** What happened since the object's trail was this prefix is a run. */
    lemma Since(before: seq<Step>)
      requires Valid() && before <= trail && IsRun(EMPTY, before)
      ensures var steps := trail[|before|..];
              Inv(Exec(EMPTY, before)) && IsRun(Exec(EMPTY, before), steps) && Exec(Exec(EMPTY, before), steps) == now
    {
      hide Exec, Can, Do;
      CrashSafety(EMPTY, before);
      hide Inv;
      RunSplits(EMPTY, trail, |before|);
      assert trail[..|before|] == before;
    }

    /**
     Reads an artifact: looks up its row, and after the steps other processes take meanwhile opens the
     file and checks it against the row.
    */
    method Get(holder: Option<Pid>, id: Id, meanwhile: seq<Step>) returns (r: Reading)
      requires Valid()
      modifies this
      ensures Valid() && old(trail) <= trail && (meanwhile == [] ==> now == old(now))
      ensures LockKept(holder, old(now), now) && now == WithOthers(old(now), holder, meanwhile)
      ensures r == Read(old(now), now, id)
      ensures r.NotFound? <==> id !in old(now).rows
      ensures id in old(now).rows ==>
                id in old(now).drawn && r == if Final(id) in now.files then Data(old(now).drawn[id]) else Unavailable
      ensures r.Unavailable? ==> id !in now.rows && id !in old(now).refs && meanwhile != []
    {
      hide Exec, IsRun, Cleaned;
      ghost var before := trail;
      Invariant();
      if id !in now.rows {
        RunOthers(holder, meanwhile);
        return NotFound;
      }
      var row := now.rows[id];
      RunOthers(holder, meanwhile);
      Since(before);
      ReadersSeeWhatWasPut(old(now), trail[|before|..], id);
      if id in old(now).refs {
        ReferencedIsForever(old(now), trail[|before|..], id);
      }
      hide Inv;
      if Final(id) !in now.files {
        return Unavailable;
      }
      r := Checked(now.files[Final(id)], row);
    }

    /** Deletes an artifact no version references: the row first, then the file. */
    method DeleteUnreferenced(pid: Pid, id: Id) returns (deleted: bool)
      requires Valid() && pid !in now.procs
      modifies this
      ensures Valid() && old(trail) <= trail && now.procs == old(now).procs && now.refs == old(now).refs
      ensures deleted <==> id in old(now).rows && id !in old(now).refs
      ensures deleted ==> now.rows == old(now).rows - {id} && now.files == old(now).files - {Final(id)}
      ensures !deleted ==> now == old(now)
    {
      hide Exec, IsRun;
      if id in now.refs || id !in now.rows {
        return false;
      }
      Take(BeginDelete(pid, id));
      Take(Unlink(pid));
      deleted := true;
    }

    /** Unlinks the files without a row, one by one. */
    method RemoveUncommitted(pid: Pid, committed: set<Id>) returns (removed: nat)
      requires Valid() && pid in now.procs && now.procs[pid] == Recovering(committed)
      modifies this
      ensures Valid() && old(trail) <= trail
      ensures now == old(now).(files := old(now).files - Removable(old(now), committed))
      ensures removed == |Removable(old(now), committed)|
    {
      hide Exec, IsRun, Uncommitted;
      ghost var start := now;
      var todo := Removable(now, committed);
      ghost var done: set<Name> := {};
      removed := 0;
      while todo != {}
        invariant Valid() && old(trail) <= trail && now == start.(files := start.files - done)
        invariant todo + done == Removable(start, committed) && todo !! done && removed == |done|
        decreases todo
      {
        var name :| name in todo;
        assert name in Removable(start, committed);
        Take(Remove(pid, name));
        todo, done := todo - {name}, done + {name};
        removed := removed + 1;
      }
      assert done == Removable(start, committed);
    }

    /** Recovery reads one artifact; the ghost results say when it looked up the row and when it opened the file. */
    method TryRead(pid: Pid, listed: set<Id>, id: Id, before: seq<Step>, during: seq<Step>)
      returns (r: Reading, ghost m: nat, ghost n: nat)
      requires Valid() && Cleaned(now, pid, listed)
      modifies this
      ensures Valid() && old(trail) <= trail && Cleaned(now, pid, listed)
      ensures |old(trail)| <= m <= n <= |trail| && r == ReadAt(trail, m, n, id)
      ensures before == [] && during == [] ==> now == old(now)
    {
      hide Exec, IsRun, Cleaned, Read, At;
      RunOthers(Some(pid), before);
      ghost var middle := trail;
      r := Get(Some(pid), id, during);
      MomentsStay(EMPTY, middle, trail);
      MomentsStay(EMPTY, trail, trail);
      m, n := |middle|, |trail|;
    }

    /** Reads the listed artifacts one by one, while other processes take their steps, and collects those it does not get. */
    method Unreadable(pid: Pid, listed: set<Id>, before: Id -> seq<Step>, during: Id -> seq<Step>)
      returns (unavailable: set<Id>, ghost looked: map<Id, nat>, ghost fetched: map<Id, nat>)
      requires Valid() && Cleaned(now, pid, listed)
      modifies this
      ensures Valid() && old(trail) <= trail && Cleaned(now, pid, listed)
      ensures Reports(trail, |old(trail)|, listed, unavailable, looked, fetched)
      ensures (forall id | id in listed :: before(id) == [] && during(id) == []) ==> now == old(now)
    {
      hide Exec, IsRun, Cleaned, ReadAt;
      unavailable, looked, fetched := {}, map[], map[];
      var unread := listed;
      while unread != {}
        invariant Valid() && old(trail) <= trail && Cleaned(now, pid, listed) && unread <= listed
        invariant Reports(trail, |old(trail)|, listed - unread, unavailable, looked, fetched)
        invariant (forall id | id in listed :: before(id) == [] && during(id) == []) ==> now == old(now)
        decreases unread
      {
        var id :| id in unread;
        ghost var past := trail;
        var r, m, n := TryRead(pid, listed, id, before(id), during(id));
        ReportsStay(past, trail, |old(trail)|, listed - unread, unavailable, looked, fetched);
        ReportsGrow(trail, |old(trail)|, listed - unread, unavailable, looked, fetched, id, m, n);
        looked, fetched := looked[id := m], fetched[id := n];
        if !r.Data? {
          unavailable := unavailable + {id};
        }
        assert listed - (unread - {id}) == listed - unread + {id};
        unread := unread - {id};
      }
    }

    /** Recovery's pass over the files: it takes the lock, removes what has no row and keeps the lock. */
    method RemoveStrays(pid: Pid) returns (removed: nat)
      requires Valid() && LockFree(now) && pid !in now.procs
      modifies this
      ensures Valid() && old(trail) <= trail && Cleaned(now, pid, now.rows.Keys)
      ensures var strays := old(now).files.Keys - PublishedFiles(old(now).rows);
              && removed == |strays|
              && now == old(now).(files := old(now).files - strays, procs := old(now).procs[pid := Recovering(now.rows.Keys)])
    {
      Invariant();
      hide Exec, IsRun, Inv, Removable, PublishedFiles;
      ghost var start := now;
      var committed := now.rows.Keys;
      RemainingAre(start, committed);
      Take(BeginRecover(pid));
      assert now == start.(procs := start.procs[pid := Recovering(committed)]);
      SameFiles(start, now, committed);
      hide Do, Can, Cleaned;
      removed := RemoveUncommitted(pid, committed);
      NothingRemovable(start, now, pid, committed);
    }

    /** Releases the lock. The files left are those of the rows, and others at most of artifacts listed before. */
    method Release(pid: Pid, listed: map<Id, Row>)
      requires Valid() && Cleaned(now, pid, listed.Keys)
      modifies this
      ensures Valid() && trail == old(trail) + [EndRecover(pid)]
      ensures now == old(now).(procs := Without(old(now).procs, pid)) && pid !in now.procs
      ensures PublishedFiles(now.rows) <= now.files.Keys <= PublishedFiles(listed)
    {
      Invariant();
      hide Exec, IsRun;
      assert forall name | name in now.files :: name == Final(name.id);
      Take(EndRecover(pid));
    }

    /**
     Removes every file without a row, then reads every artifact listed at the start. It reports exactly
     those it does not get: none that was referenced, none that still has its row at the end, and none
     at all without other processes. Every file left is that of a row or of an artifact deleted meanwhile.
    */
    method Recover(pid: Pid, before: Id -> seq<Step>, during: Id -> seq<Step>)
      returns (removed: nat, unavailable: set<Id>, ghost looked: map<Id, nat>, ghost fetched: map<Id, nat>)
      requires Valid() && LockFree(now) && pid !in now.procs
      modifies this
      ensures Valid() && old(trail) <= trail && pid !in now.procs
      ensures removed == |old(now).files.Keys - PublishedFiles(old(now).rows)|
      ensures PublishedFiles(now.rows) <= now.files.Keys <= PublishedFiles(old(now).rows)
      ensures Reports(trail, |old(trail)|, old(now).rows.Keys, unavailable, looked, fetched)
      ensures unavailable <= old(now).rows.Keys - now.rows.Keys - old(now).refs
      ensures (forall id | id in old(now).rows :: before(id) == [] && during(id) == []) ==>
                && now == old(now).(files := old(now).files - (old(now).files.Keys - PublishedFiles(old(now).rows)))
                && now.files.Keys == PublishedFiles(now.rows) && unavailable == {}
    {
      hide Exec, IsRun, LockFree, PublishedFiles, Reports, Cleaned, Without;
      var rows := now.rows;
      ghost var past, start := trail, now;
      removed := RemoveStrays(pid);
      ghost var k := |trail|;
      unavailable, looked, fetched := Unreadable(pid, rows.Keys, before, during);
      ghost var read := trail;
      Release(pid, rows);
      LockReturned(start.procs, pid, Recovering(rows.Keys));
      ReportedAreDeleted(past, read, trail, k, rows.Keys, unavailable, looked, fetched);
    }
  }

  lemma LockReturned(procs: map<Pid, Proc>, pid: Pid, p: Proc)
    requires pid !in procs
    ensures Without(procs[pid := p], pid) == procs
  {
  }

  lemma SameFiles(s: State, t: State, committed: set<Id>)
    requires s.files == t.files
    ensures Removable(s, committed) == Removable(t, committed)
  {
  }

  lemma NothingRemovable(s: State, t: State, pid: Pid, committed: set<Id>)
    requires t.files == s.files - Removable(s, committed) && pid in t.procs && t.procs[pid] == Recovering(committed)
    ensures Cleaned(t, pid, committed)
  {
  }
}
