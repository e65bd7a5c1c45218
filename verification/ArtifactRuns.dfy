/**
 The artifact store of one workspace as a state machine: puts, deletions and recoveries of any
 number of processes interleave step by step, and any process can crash between two steps.
*/
module ArtifactRuns {
  import opened Wrappers

  type Id = nat
  type Pid = nat
  type Bytes = seq<bv8>

  /** An ideal digest: no two contents share one. */
  datatype Digest = Sha(of: Bytes)

  datatype Row = Row(digest: Digest, size: nat)

  datatype Name = Stage(id: Id) | Final(id: Id)

  /** Where a process stands. Putting and Recovering hold the workspace lock. */
  datatype Proc = Putting(id: Id, data: Bytes, published: bool) | Unlinking(id: Id) | Recovering(committed: set<Id>)

  /** drawn remembers, for every identity ever drawn, the bytes it was drawn for. */
  datatype State = State(
    files: map<Name, Bytes>, rows: map<Id, Row>, refs: set<Id>, procs: map<Pid, Proc>, drawn: map<Id, Bytes>)

  const EMPTY := State(map[], map[], {}, map[], map[])

  datatype Step =
    | BeginPut(pid: Pid, id: Id, data: Bytes)
    | Write(pid: Pid, content: Bytes)
    | Publish(pid: Pid)
    | Commit(pid: Pid)
    | Fail(pid: Pid)
    | BeginDelete(pid: Pid, id: Id)
    | Unlink(pid: Pid)
    | BeginRecover(pid: Pid)
    | Remove(pid: Pid, name: Name)
    | EndRecover(pid: Pid)
    | AddReference(id: Id)
    | Crash(pid: Pid)

  predicate LockFree(s: State) { forall pid | pid in s.procs :: s.procs[pid].Unlinking? }

  predicate IsPutting(s: State, pid: Pid) { pid in s.procs && s.procs[pid].Putting? }
  predicate IsRecovering(s: State, pid: Pid) { pid in s.procs && s.procs[pid].Recovering? }

  /** A file recovery deletes: a stage, or a published file without a row when recovery began. */
  predicate Uncommitted(committed: set<Id>, name: Name) { name.Stage? || name.id !in committed }

  /** Recovery has nothing left to remove. */
  predicate Cleaned(s: State, pid: Pid, committed: set<Id>) {
    && pid in s.procs && s.procs[pid] == Recovering(committed)
    && forall name | name in s.files :: !Uncommitted(committed, name)
  }

  predicate Can(s: State, step: Step) {
    match step
    case BeginPut(pid, id, _) => pid !in s.procs && LockFree(s) && id !in s.drawn
    case Write(pid, _) => IsPutting(s, pid) && !s.procs[pid].published
    case Publish(pid) =>
      IsPutting(s, pid) && Stage(s.procs[pid].id) in s.files && Sha(s.files[Stage(s.procs[pid].id)]) == Sha(s.procs[pid].data)
    case Commit(pid) => IsPutting(s, pid) && s.procs[pid].published
    case Fail(pid) => IsPutting(s, pid)
    case BeginDelete(pid, id) => pid !in s.procs && id in s.rows && id !in s.refs
    case Unlink(pid) => pid in s.procs && s.procs[pid].Unlinking?
    case BeginRecover(pid) => pid !in s.procs && LockFree(s)
    case Remove(pid, name) => IsRecovering(s, pid) && name in s.files && Uncommitted(s.procs[pid].committed, name)
    case EndRecover(pid) => IsRecovering(s, pid) && Cleaned(s, pid, s.procs[pid].committed)
    case AddReference(id) => id in s.rows
    case Crash(pid) => pid in s.procs
  }

  function Without(procs: map<Pid, Proc>, pid: Pid): map<Pid, Proc> { procs - {pid} }

  /** A deletion drops the row first and the file after; a put publishes the file first and commits the row after. */
  function Do(s: State, step: Step): State
    requires Can(s, step)
  {
    match step
    case BeginPut(pid, id, data) => s.(procs := s.procs[pid := Putting(id, data, false)], drawn := s.drawn[id := data])
    case Write(pid, content) => s.(files := s.files[Stage(s.procs[pid].id) := content])
    case Publish(pid) =>
      var p := s.procs[pid];
      s.(files := (s.files - {Stage(p.id)})[Final(p.id) := s.files[Stage(p.id)]], procs := s.procs[pid := p.(published := true)])
    case Commit(pid) =>
      var p := s.procs[pid];
      s.(rows := s.rows[p.id := Row(Sha(p.data), |p.data|)], procs := Without(s.procs, pid))
    case Fail(pid) =>
      var p := s.procs[pid];
      s.(files := s.files - {Stage(p.id), Final(p.id)}, procs := Without(s.procs, pid))
    case BeginDelete(pid, id) => s.(rows := s.rows - {id}, procs := s.procs[pid := Unlinking(id)])
    case Unlink(pid) => s.(files := s.files - {Final(s.procs[pid].id)}, procs := Without(s.procs, pid))
    case BeginRecover(pid) => s.(procs := s.procs[pid := Recovering(s.rows.Keys)])
    case Remove(_, name) => s.(files := s.files - {name})
    case EndRecover(pid) => s.(procs := Without(s.procs, pid))
    case AddReference(id) => s.(refs := s.refs + {id})
    case Crash(pid) => s.(procs := Without(s.procs, pid))
  }

  ghost predicate IsRun(s: State, steps: seq<Step>)
    decreases |steps|, 0
  {
    steps == [] ||
    (IsRun(s, steps[..|steps| - 1]) && Can(Exec(s, steps[..|steps| - 1]), steps[|steps| - 1]))
  }

  ghost function Exec(s: State, steps: seq<Step>): State
    requires IsRun(s, steps)
    decreases |steps|, 1
  {
    if steps == [] then s else Do(Exec(s, steps[..|steps| - 1]), steps[|steps| - 1])
  }

  lemma {:induction false} RunSplits(s: State, steps: seq<Step>, n: nat)
    requires IsRun(s, steps) && n <= |steps|
    ensures IsRun(s, steps[..n]) && IsRun(Exec(s, steps[..n]), steps[n..])
    ensures Exec(Exec(s, steps[..n]), steps[n..]) == Exec(s, steps)
    decreases |steps|
  {
    hide Can, Do;
    if n == |steps| {
      assert steps[..n] == steps;
    } else {
      var front, rest := steps[..|steps| - 1], steps[n..];
      RunSplits(s, front, n);
      assert front[..n] == steps[..n] && rest[..|rest| - 1] == front[n..];
    }
  }

  /** The state after the first n steps of a run. */
  ghost function At(s: State, steps: seq<Step>, n: nat): State
    requires IsRun(s, steps) && n <= |steps|
  {
    RunSplits(s, steps, n);
    Exec(s, steps[..n])
  }

  /** From one moment of a run to a later one the steps between are a run. */
  lemma Between(s: State, steps: seq<Step>, m: nat, n: nat)
    requires IsRun(s, steps) && m <= n <= |steps|
    ensures IsRun(At(s, steps, m), steps[m..n]) && Exec(At(s, steps, m), steps[m..n]) == At(s, steps, n)
  {
    RunSplits(s, steps, n);
    RunSplits(s, steps[..n], m);
    assert steps[..n][..m] == steps[..m] && steps[..n][m..] == steps[m..n];
  }

  // ---- The invariant -----------------------------------------------------------------------------

  /** Every ready row has its published file, with the bytes its identity was drawn for, and no staging file. */
  ghost predicate RowsHaveFiles(s: State) {
    forall id | id in s.rows ::
      && id in s.drawn && Final(id) in s.files && s.files[Final(id)] == s.drawn[id] && Stage(id) !in s.files
      && s.rows[id] == Row(Sha(s.drawn[id]), |s.drawn[id]|)
  }

  ghost predicate ProcInv(s: State, p: Proc) {
    match p
    case Putting(id, data, published) =>
      && id in s.drawn && s.drawn[id] == data && id !in s.rows
      && (published ==> Final(id) in s.files && s.files[Final(id)] == data && Stage(id) !in s.files)
    case Unlinking(id) => id in s.drawn && id !in s.rows
    case Recovering(committed) => s.rows.Keys <= committed
  }

  ghost predicate ProcsInv(s: State) { forall pid | pid in s.procs :: ProcInv(s, s.procs[pid]) }

  /** One process holds the lock, and no process unlinks what another is putting. */
  ghost predicate Exclusive(s: State) {
    && (forall p, q | p in s.procs && q in s.procs && !s.procs[p].Unlinking? && !s.procs[q].Unlinking? :: p == q)
    && (forall p, q | p in s.procs && q in s.procs && s.procs[p].Putting? && s.procs[q].Unlinking? :: s.procs[p].id != s.procs[q].id)
  }

  ghost predicate FilesDrawn(s: State) { forall name | name in s.files :: name.id in s.drawn }

  ghost predicate Inv(s: State) {
    RowsHaveFiles(s) && ProcsInv(s) && Exclusive(s) && FilesDrawn(s) && s.refs <= s.rows.Keys
  }

  lemma DoKeepsRows(s: State, step: Step)
    requires Inv(s) && Can(s, step)
    ensures RowsHaveFiles(Do(s, step)) && FilesDrawn(Do(s, step)) && Do(s, step).refs <= Do(s, step).rows.Keys
  {
    hide Exclusive, LockFree;
    match step
    case Write(pid, _) => assert ProcInv(s, s.procs[pid]);
    case Publish(pid) => assert ProcInv(s, s.procs[pid]);
    case Commit(pid) => assert ProcInv(s, s.procs[pid]);
    case Fail(pid) => assert ProcInv(s, s.procs[pid]);
    case Unlink(pid) => assert ProcInv(s, s.procs[pid]);
    case Remove(pid, _) => assert ProcInv(s, s.procs[pid]);
    case _ =>
  }

  lemma DoKeepsExclusive(s: State, step: Step)
    requires Inv(s) && Can(s, step)
    ensures Exclusive(Do(s, step))
  {
    hide RowsHaveFiles;
    var t := Do(s, step);
    forall p, q | p in t.procs && q in t.procs && t.procs[p].Putting? && t.procs[q].Unlinking? ensures t.procs[p].id != t.procs[q].id {
      assert p in s.procs ==> ProcInv(s, s.procs[p]);
      assert q in s.procs ==> ProcInv(s, s.procs[q]);
    }
  }

  lemma DoKeepsProc(s: State, step: Step, pid: Pid)
    requires Inv(s) && Can(s, step) && pid in Do(s, step).procs
    ensures ProcInv(Do(s, step), Do(s, step).procs[pid])
  {
    hide LockFree;
    if pid in s.procs {
      assert ProcInv(s, s.procs[pid]);
    }
    match step
    case BeginPut(q, _, _) =>
    case Write(q, _) => assert ProcInv(s, s.procs[q]);
    case Publish(q) => assert ProcInv(s, s.procs[q]);
    case Commit(q) => assert ProcInv(s, s.procs[q]);
    case Fail(q) => assert ProcInv(s, s.procs[q]);
    case Unlink(q) => assert ProcInv(s, s.procs[q]);
    case Remove(q, _) => assert ProcInv(s, s.procs[q]);
    case _ =>
  }

  lemma DoKeepsInv(s: State, step: Step)
    requires Inv(s) && Can(s, step)
    ensures Inv(Do(s, step))
  {
    DoKeepsRows(s, step);
    DoKeepsExclusive(s, step);
    forall pid | pid in Do(s, step).procs ensures ProcInv(Do(s, step), Do(s, step).procs[pid]) {
      DoKeepsProc(s, step, pid);
    }
    hide Can, Do, RowsHaveFiles, Exclusive, ProcInv, FilesDrawn;
  }

  /**
   Crash safety: after any steps of any processes, crashes included, every ready row has a published
   file of the size and digest it records, and no referenced artifact has lost its row.
  */
  lemma {:induction false} CrashSafety(s: State, steps: seq<Step>)
    requires Inv(s) && IsRun(s, steps)
    ensures Inv(Exec(s, steps))
    decreases |steps|
  {
    if steps != [] {
      hide Inv, Can, Do;
      CrashSafety(s, steps[..|steps| - 1]);
      DoKeepsInv(Exec(s, steps[..|steps| - 1]), steps[|steps| - 1]);
    }
  }

  lemma MomentsKeepInv(s: State, steps: seq<Step>, n: nat)
    requires Inv(s) && IsRun(s, steps) && n <= |steps|
    ensures Inv(At(s, steps, n))
  {
    hide Inv, Exec;
    RunSplits(s, steps, n);
    CrashSafety(s, steps[..n]);
  }

  // ---- Readers -----------------------------------------------------------------------------------

  /** Corrupt is a file that does not match its row; Unavailable is a row whose file is gone. */
  datatype Reading = NotFound | Unavailable | Corrupt | Data(bytes: Bytes)

  /** The second half of a get: the file is opened without a lock and checked against the row read before. */
  function ReadFile(t: State, id: Id, row: Row): Reading {
    if Final(id) !in t.files then Unavailable
    else if |t.files[Final(id)]| != row.size || Sha(t.files[Final(id)]) != row.digest then Corrupt
    else Data(t.files[Final(id)])
  }

  /** A reader is given the file exactly if it has the size and the digest the row records. */
  lemma FilesAreChecked(t: State, id: Id, row: Row)
    requires Final(id) in t.files
    ensures var bytes := t.files[Final(id)];
            if |bytes| == row.size && Sha(bytes) == row.digest then ReadFile(t, id, row) == Data(bytes)
            else ReadFile(t, id, row) == Corrupt
  {
  }

  /** A get that looks up the row in state s, in a transaction of its own, and opens the file in state t. */
  function Read(s: State, t: State, id: Id): Reading {
    if id !in s.rows then NotFound else ReadFile(t, id, s.rows[id])
  }

  /** An identity whose put is over: nobody publishes under it again. */
  ghost predicate Settled(s: State, id: Id, data: Bytes) {
    && id in s.drawn && s.drawn[id] == data
    && (forall pid | IsPutting(s, pid) :: s.procs[pid].id != id)
    && (Final(id) in s.files ==> s.files[Final(id)] == data)
  }

  lemma RowsAreSettled(s: State, id: Id)
    requires Inv(s) && id in s.rows
    ensures id in s.drawn && Settled(s, id, s.drawn[id]) && Final(id) in s.files
  {
    forall pid | IsPutting(s, pid) ensures s.procs[pid].id != id {
      assert ProcInv(s, s.procs[pid]);
    }
  }

  lemma SettledStays(s: State, step: Step, id: Id, data: Bytes)
    requires Settled(s, id, data) && Can(s, step)
    ensures Settled(Do(s, step), id, data) && (id in Do(s, step).rows ==> id in s.rows)
  {
    hide LockFree, Uncommitted;
  }

  /** A settled identity keeps its bytes for as long as it has a file, and gets no row it does not have. */
  lemma {:induction false} SettledForGood(s: State, steps: seq<Step>, id: Id, data: Bytes)
    requires Settled(s, id, data) && IsRun(s, steps)
    ensures Settled(Exec(s, steps), id, data) && (id in Exec(s, steps).rows ==> id in s.rows)
    decreases |steps|
  {
    if steps != [] {
      var front := steps[..|steps| - 1];
      hide Settled, Can, Do;
      SettledForGood(s, front, id, data);
      SettledStays(Exec(s, front), steps[|steps| - 1], id, data);
    }
  }

  /**
   Whatever happens between the two halves of a get, a reader finds nothing exactly if there was no
   row, and otherwise gets the bytes that were put or learns that the file is gone, never other bytes.
   The file is there as long as the row is.
  */
  lemma ReadersSeeWhatWasPut(s: State, steps: seq<Step>, id: Id)
    requires Inv(s) && IsRun(s, steps)
    ensures var t := Exec(s, steps);
            && (Read(s, t, id).NotFound? <==> id !in s.rows)
            && (id in s.rows ==> Read(s, t, id) == if Final(id) in t.files then Data(s.drawn[id]) else Unavailable)
            && (id in s.rows && id in t.rows ==> Read(s, t, id) == Data(s.drawn[id]))
  {
    CrashSafety(s, steps);
    if id in s.rows {
      RowsAreSettled(s, id);
      SettledForGood(s, steps, id, s.drawn[id]);
    }
    hide Exec, IsRun;
  }

  /** An artifact once found unavailable is deleted: it has no row any more and never gets one. */
  lemma UnavailableIsForGood(s: State, steps: seq<Step>, later: seq<Step>, id: Id)
    requires Inv(s) && IsRun(s, steps) && IsRun(Exec(s, steps), later)
    requires Read(s, Exec(s, steps), id).Unavailable?
    ensures id !in Exec(s, steps).rows && id !in Exec(Exec(s, steps), later).rows
  {
    ReadersSeeWhatWasPut(s, steps, id);
    RowsAreSettled(s, id);
    SettledForGood(s, steps, id, s.drawn[id]);
    SettledForGood(Exec(s, steps), later, id, s.drawn[id]);
  }

  /** Once referenced, an artifact keeps its row and its bytes through everything that follows. */
  lemma {:induction false} ReferencedIsForever(s: State, steps: seq<Step>, id: Id)
    requires Inv(s) && IsRun(s, steps) && id in s.refs
    ensures var t := Exec(s, steps); id in t.refs && id in t.rows && Read(t, t, id) == Read(s, s, id)
    decreases |steps|
  {
    if steps != [] {
      var front := steps[..|steps| - 1];
      hide Inv;
      ReferencedIsForever(s, front, id);
      CrashSafety(s, front);
      ReferenceStays(Exec(s, front), steps[|steps| - 1], id);
    }
  }

  lemma ReferenceStays(s: State, step: Step, id: Id)
    requires Inv(s) && Can(s, step) && id in s.refs
    ensures id in Do(s, step).refs && id in Do(s, step).rows && Read(Do(s, step), Do(s, step), id) == Read(s, s, id)
  {
    hide Exclusive, LockFree;
    DoKeepsInv(s, step);
    assert id in s.rows;
    if step.BeginPut? {
      assert id in s.drawn;
    }
  }

  /** A deletion that comes between the two halves of a get leaves the reader without the file. */
  lemma DeletionOvertakesReader(s: State, pid: Pid, id: Id)
    requires id in s.rows && id !in s.refs && pid !in s.procs
    ensures var steps := [BeginDelete(pid, id), Unlink(pid)];
            IsRun(s, steps) && Read(s, Exec(s, steps), id) == Unavailable
  {
    var delete, unlink := BeginDelete(pid, id), Unlink(pid);
    assert [delete, unlink][..1] == [delete] && [delete][..0] == [];
    assert IsRun(s, []) && Exec(s, []) == s;
    assert IsRun(s, [delete]) && Exec(s, [delete]) == Do(s, delete);
  }

  /** There is always another process: a number above all of these. */
  lemma {:induction false} SomeFreePid(pids: set<Pid>) returns (above: Pid)
    ensures forall pid | pid in pids :: pid < above
  {
    above := 0;
    if pids != {} {
      var pid :| pid in pids;
      above := SomeFreePid(pids - {pid});
      above := if pid < above then above else pid + 1;
      assert forall q | q in pids :: q == pid || q in pids - {pid};
    }
  }

  /** A get is sure to return the bytes, whatever others do between its two halves, exactly if the artifact is referenced. */
  lemma ReadIsSureExactly(s: State, id: Id)
    requires Inv(s) && id in s.rows
    ensures id in s.refs <==> forall steps | IsRun(s, steps) :: Read(s, Exec(s, steps), id) == Data(s.drawn[id])
  {
    if id in s.refs {
      forall steps | IsRun(s, steps) ensures Read(s, Exec(s, steps), id) == Data(s.drawn[id]) {
        ReferencedIsForever(s, steps, id);
        ReadersSeeWhatWasPut(s, steps, id);
      }
    } else {
      var pid := SomeFreePid(s.procs.Keys);
      DeletionOvertakesReader(s, pid, id);
    }
  }

  /** Where a step can take a process: a put publishes once, and everything else ends in one step of its own or by a crash. */
  ghost predicate Advances(p: Proc, step: Step, q: Option<Proc>) {
    match p
    case Putting(id, data, published) =>
      || (step.Write? && !published && q == Some(p))
      || (step.Publish? && q == Some(Putting(id, data, true)))
      || (step.Commit? && published && q == None)
      || ((step.Fail? || step.Crash?) && q == None)
    case Unlinking(id) => (step.Unlink? || step.Crash?) && q == None
    case Recovering(committed) => (step.Remove? && q == Some(p)) || ((step.EndRecover? || step.Crash?) && q == None)
  }

  function ProcOf(s: State, pid: Pid): Option<Proc> { if pid in s.procs then Some(s.procs[pid]) else None }

  /** A step concerns one process; it starts a new one, or takes one that is there a step further. */
  lemma ProcessesAdvance(s: State, step: Step, pid: Pid)
    requires Can(s, step)
    ensures Foreign(step, pid) ==> ProcOf(Do(s, step), pid) == ProcOf(s, pid)
    ensures !Foreign(step, pid) && pid in s.procs ==> Advances(s.procs[pid], step, ProcOf(Do(s, step), pid))
    ensures !Foreign(step, pid) && pid !in s.procs ==>
              match step {
                case BeginPut(_, id, data) => ProcOf(Do(s, step), pid) == Some(Putting(id, data, false))
                case BeginDelete(_, id) => ProcOf(Do(s, step), pid) == Some(Unlinking(id))
                case BeginRecover(_) => ProcOf(Do(s, step), pid) == Some(Recovering(s.rows.Keys))
                case _ => false
              }
  {
    hide LockFree, Cleaned, Uncommitted;
  }

  /** Rows come by commits and go by deletions; a reference is added only to an artifact that has its row. */
  lemma RowsChange(s: State, step: Step, id: Id)
    requires Can(s, step)
    ensures id in Do(s, step).rows && id !in s.rows ==> step.Commit? && s.procs[step.pid].Putting? && s.procs[step.pid].id == id
    ensures id in s.rows && id !in Do(s, step).rows ==> step.BeginDelete? && step.id == id && id !in s.refs
    ensures id in Do(s, step).refs && id !in s.refs ==> step == AddReference(id) && id in s.rows
    ensures id in s.refs ==> id in Do(s, step).refs
  {
    hide LockFree, Cleaned, Uncommitted;
  }

  /** Recovery removes only files without a row. */
  lemma RecoveryRemovesNoRowsFile(s: State, pid: Pid, name: Name)
    requires Inv(s) && Can(s, Remove(pid, name))
    ensures name.Stage? || name.id !in s.rows
  {
    assert ProcInv(s, s.procs[pid]);
  }

  /** A step of a process other than this one. */
  predicate Foreign(step: Step, pid: Pid) { step.AddReference? || step.pid != pid }

  /** While recovery holds the lock nobody adds a file. */
  lemma CleanedStays(s: State, step: Step, pid: Pid, committed: set<Id>)
    requires Inv(s) && Can(s, step) && Foreign(step, pid) && Cleaned(s, pid, committed)
    ensures Cleaned(Do(s, step), pid, committed)
  {
    hide RowsHaveFiles, ProcsInv, FilesDrawn, Uncommitted;
  }

  /**
   An artifact with a row at moment k, looked up at m and its file opened at n: if the bytes are not
   read, it has been deleted by the end of the run, and was not referenced at k.
  */
  lemma UnreadableIsDeleted(s: State, steps: seq<Step>, k: nat, m: nat, n: nat, id: Id)
    requires Inv(s) && IsRun(s, steps) && k <= m <= n <= |steps| && id in At(s, steps, k).rows
    ensures Read(At(s, steps, m), At(s, steps, n), id).Data?
            || (id !in Exec(s, steps).rows && id !in At(s, steps, k).refs)
  {
    var start, looked, fetched, last := At(s, steps, k), At(s, steps, m), At(s, steps, n), |steps|;
    hide Inv, Settled, At, Exec, IsRun, Read;
    MomentsKeepInv(s, steps, k);
    MomentsKeepInv(s, steps, m);
    MomentsStay(s, steps, steps);
    Between(s, steps, k, m);
    Between(s, steps, m, n);
    Between(s, steps, n, last);
    Between(s, steps, k, last);
    ReadersSeeWhatWasPut(looked, steps[m..n], id);
    RowsAreSettled(start, id);
    SettledForGood(start, steps[k..m], id, start.drawn[id]);
    SettledForGood(looked, steps[m..n], id, start.drawn[id]);
    SettledForGood(fetched, steps[n..last], id, start.drawn[id]);
    if id in start.refs {
      ReferencedIsForever(start, steps[k..last], id);
    }
  }

  /** The moments of a run stay what they were as it goes on. */
  lemma MomentsStay(s: State, past: seq<Step>, steps: seq<Step>)
    requires IsRun(s, past) && IsRun(s, steps) && past <= steps
    ensures forall n: nat | n <= |past| :: At(s, steps, n) == At(s, past, n)
    ensures At(s, steps, |past|) == Exec(s, past)
  {
    forall n: nat | n <= |past| ensures steps[..n] == past[..n] {
    }
    assert past[..|past|] == past;
  }

  function PublishedFiles(rows: map<Id, Row>): set<Name> { set id | id in rows :: Final(id) }

  /**
   When recovery has nothing left to remove, the files are those of the rows, and besides them at
   most files of artifacts deleted since it began; files and rows coincide exactly when none is left.
  */
  lemma RecoveryLeavesRowsFiles(s: State, pid: Pid)
    requires Inv(s) && Can(s, EndRecover(pid))
    ensures PublishedFiles(s.rows) <= s.files.Keys
    ensures forall name | name in s.files && name !in PublishedFiles(s.rows) ::
              name.Final? && name.id in s.procs[pid].committed - s.rows.Keys
    ensures s.files.Keys == PublishedFiles(s.rows) <==>
              forall id | id in s.procs[pid].committed - s.rows.Keys :: Final(id) !in s.files
  {
    forall name | name in s.files && name !in PublishedFiles(s.rows)
      ensures name.Final? && name.id in s.procs[pid].committed - s.rows.Keys
    {
      assert !Uncommitted(s.procs[pid].committed, name);
      assert name == Final(name.id);
    }
  }
}
