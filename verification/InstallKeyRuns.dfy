/**
 Creating the install key: any number of installers interleave their file-system steps, each may
 crash between two steps, and a power loss throws away what was not synced.
*/
module InstallKeyRuns {
  import opened Wrappers

  type Pid = nat
  type Ino = nat
  type Bytes = seq<bv8>

  const KEY_BYTES := 32

  /** A file: its content, the part of it that has reached the disk, and whether it may hold a key. */
  datatype Inode = Inode(content: Bytes, synced: Bytes, regular: bool, ownerOnly: bool)

  /** Where an installer stands. */
  datatype Proc =
    | Looking | Drawing
    | Staged(ino: Ino, key: Bytes)
    | Synced(ino: Ino, key: Bytes)
    | Linked(ino: Ino, key: Bytes)
    | Lost
    | Adopted(key: Bytes)
    | Rejected

  datatype State = State(
    inodes: map<Ino, Inode>, dest: Option<Ino>, staging: map<Pid, Ino>,
    procs: map<Pid, Proc>, used: set<Pid>, returned: map<Pid, Bytes>, failed: set<Pid>)

  datatype Step =
    | Start(pid: Pid)
    | Look(pid: Pid)
    | Stage(pid: Pid, ino: Ino, key: Bytes)
    | Write(pid: Pid, n: nat)
    | Sync(pid: Pid)
    | Link(pid: Pid)
    | Reread(pid: Pid)
    | Unlink(pid: Pid)
    | Abort(pid: Pid)
    | Crash(pid: Pid)
    | PowerLoss(kept: bool)

  datatype KeyError = NotPrivateRegular | WrongLength

  /** Only a private regular file of exactly the key's length is a key. */
  function ReadKey(f: Inode): Result<Bytes, KeyError> {
    if !f.regular || !f.ownerOnly then Failure(NotPrivateRegular)
    else if |f.content| != KEY_BYTES then Failure(WrongLength)
    else Success(f.content)
  }

  predicate At(s: State, pid: Pid) { pid in s.procs }

  predicate Can(s: State, step: Step) {
    match step
    case Start(pid) => pid !in s.used
    case Look(pid) => At(s, pid) && s.procs[pid].Looking? && (s.dest.Some? ==> s.dest.value in s.inodes)
    case Stage(pid, ino, key) => At(s, pid) && s.procs[pid].Drawing? && ino !in s.inodes && |key| == KEY_BYTES
    case Write(pid, n) => At(s, pid) && s.procs[pid].Staged? && s.procs[pid].ino in s.inodes && n <= |s.procs[pid].key|
    case Sync(pid) =>
      At(s, pid) && s.procs[pid].Staged? && s.procs[pid].ino in s.inodes && s.inodes[s.procs[pid].ino].content == s.procs[pid].key
    case Link(pid) => At(s, pid) && s.procs[pid].Synced?
    case Reread(pid) => At(s, pid) && s.procs[pid].Lost? && s.dest.Some? && s.dest.value in s.inodes
    case Unlink(pid) => At(s, pid) && (s.procs[pid].Linked? || s.procs[pid].Adopted? || s.procs[pid].Rejected?)
    case Abort(pid) => At(s, pid) && (s.procs[pid].Staged? || s.procs[pid].Synced?)
    case Crash(pid) => At(s, pid)
    case PowerLoss(_) => true
  }

  function Leave(s: State, pid: Pid): State { s.(procs := s.procs - {pid}, staging := s.staging - {pid}) }

  function Give(s: State, pid: Pid, key: Bytes): State { Leave(s, pid).(returned := s.returned[pid := key]) }

  function Raise(s: State, pid: Pid): State { Leave(s, pid).(failed := s.failed + {pid}) }

  function Become(s: State, pid: Pid, p: Proc): State { s.(procs := s.procs[pid := p]) }

  /** The key is complete on disk before the link; the link, the one publishing step, fails if the name is taken. */
  function Do(s: State, step: Step): State
    requires Can(s, step)
  {
    match step
    case Start(pid) => Become(s, pid, Looking).(used := s.used + {pid})
    case Look(pid) =>
      if s.dest.None? then Become(s, pid, Drawing)
      else (match ReadKey(s.inodes[s.dest.value])
            case Success(key) => Give(s, pid, key)
            case Failure(_) => Raise(s, pid))
    case Stage(pid, ino, key) =>
      Become(s, pid, Staged(ino, key)).(inodes := s.inodes[ino := Inode([], [], true, true)], staging := s.staging[pid := ino])
    case Write(pid, n) =>
      var p := s.procs[pid];
      s.(inodes := s.inodes[p.ino := s.inodes[p.ino].(content := p.key[..n])])
    case Sync(pid) =>
      var p := s.procs[pid];
      Become(s, pid, Synced(p.ino, p.key)).(inodes := s.inodes[p.ino := s.inodes[p.ino].(synced := p.key)])
    case Link(pid) =>
      var p := s.procs[pid];
      if s.dest.None? then Become(s, pid, Linked(p.ino, p.key)).(dest := Some(p.ino)) else Become(s, pid, Lost)
    case Reread(pid) =>
      (match ReadKey(s.inodes[s.dest.value])
       case Success(key) => Become(s, pid, Adopted(key))
       case Failure(_) => Become(s, pid, Rejected))
    case Unlink(pid) =>
      if s.procs[pid].Rejected? then Raise(s, pid) else Give(s, pid, s.procs[pid].key)
    case Abort(pid) => Raise(s, pid)
    case Crash(pid) => s.(procs := s.procs - {pid})
    case PowerLoss(kept) =>
      s.(inodes := map i | i in s.inodes :: s.inodes[i].(content := s.inodes[i].synced),
         dest := if kept then s.dest else None, procs := map[])
  }

  ghost predicate IsRun(s: State, steps: seq<Step>)
    decreases |steps|, 0
  {
    steps == [] ||
    (IsRun(s, steps[..|steps| - 1]) && Can(Exec(s, steps[..|steps| - 1]), steps[|steps| - 1]))
  }

  ghost function Exec(s: State, steps: seq<Step>): State
    requires IsRun(s, steps)
    decreases |steps|, 1
  {
    if steps == [] then s else Do(Exec(s, steps[..|steps| - 1]), steps[|steps| - 1])
  }

  /** No power loss in these steps took the destination's directory entry. */
  predicate EntryKept(steps: seq<Step>) { PowerLoss(false) !in steps }

  // ---- The stages of an installer ----------------------------------------------------------------

  /** A key is 32 bytes in a regular file only its owner can read. */
  lemma KeysAre(f: Inode, key: Bytes)
    ensures ReadKey(f) == Success(key) <==> f.regular && f.ownerOnly && |f.content| == 32 && f.content == key
    ensures ReadKey(f) == Failure(NotPrivateRegular) <==> !f.regular || !f.ownerOnly
  {
  }

  /** Where a step can take an installer that stays; only these lead on. */
  ghost predicate Advances(p: Proc, q: Proc) {
    match p
    case Looking => q == Drawing
    case Drawing => q.Staged? && |q.key| == KEY_BYTES
    case Staged(ino, key) => q == p || q == Synced(ino, key)
    case Synced(ino, key) => q == Linked(ino, key) || q == Lost
    case Lost => q.Adopted? || q == Rejected
    case _ => false
  }

  lemma InstallersAdvance(s: State, step: Step, pid: Pid)
    requires Can(s, step) && s.procs.Keys <= s.used
    ensures pid in s.procs && pid in Do(s, step).procs ==>
              Do(s, step).procs[pid] == s.procs[pid] || Advances(s.procs[pid], Do(s, step).procs[pid])
    ensures pid !in s.procs && pid in Do(s, step).procs ==> step == Start(pid) && pid !in s.used && Do(s, step).procs[pid] == Looking
  {
  }

  /** The destination's file as a key, if there is one that is. */
  function KeyAt(s: State): Option<Bytes> {
    if s.dest.Some? && s.dest.value in s.inodes && ReadKey(s.inodes[s.dest.value]).Success?
    then Some(ReadKey(s.inodes[s.dest.value]).value) else None
  }

  /**
   How an installer ends. It returns a key only from having found it, linked it or adopted it; it fails
   only on what is no key or before its link; either way its staging name is gone. A crash keeps the name.
  */
  lemma InstallersEnd(s: State, step: Step, pid: Pid)
    requires Can(s, step) && pid in s.procs && pid !in Do(s, step).procs && !step.PowerLoss?
    ensures step == Crash(pid) ==> Do(s, step) == s.(procs := s.procs - {pid})
    ensures step != Crash(pid) ==> pid !in Do(s, step).staging
    ensures step != Crash(pid) ==>
              var t := Do(s, step);
              match s.procs[pid] {
                case Looking => if KeyAt(s).Some? then Gives(s, t, pid, KeyAt(s).value) else Raises(s, t, pid)
                case Linked(_, key) => Gives(s, t, pid, key)
                case Adopted(key) => Gives(s, t, pid, key)
                case Drawing => false
                case Lost => false
                case _ => Raises(s, t, pid)
              }
  {
  }

  ghost predicate Gives(s: State, t: State, pid: Pid, key: Bytes) { t.returned == s.returned[pid := key] && t.failed == s.failed }
  ghost predicate Raises(s: State, t: State, pid: Pid) { t.returned == s.returned && t.failed == s.failed + {pid} }

  /** Staging makes a private, empty file under a name of its own; a power loss leaves of every file what was synced. */
  lemma FilesChange(s: State, step: Step)
    requires Can(s, step)
    ensures step.Stage? ==>
              var t := Do(s, step);
              t.inodes == s.inodes[step.ino := Inode([], [], true, true)] && t.staging == s.staging[step.pid := step.ino]
    ensures step.PowerLoss? ==>
              var t := Do(s, step);
              && t.procs == map[] && t.inodes.Keys == s.inodes.Keys
              && forall i | i in s.inodes :: t.inodes[i] == s.inodes[i].(content := s.inodes[i].synced)
  {
  }

  // ---- The invariant -----------------------------------------------------------------------------

  /** What a reader of the destination gets, if there is one. */
  function Published(s: State): Option<Result<Bytes, KeyError>> {
    if s.dest.Some? && s.dest.value in s.inodes then Some(ReadKey(s.inodes[s.dest.value])) else None
  }

  ghost predicate DestInv(s: State) {
    s.dest.Some? ==> s.dest.value in s.inodes && s.inodes[s.dest.value].content == s.inodes[s.dest.value].synced
  }

  /** A file an installer is preparing is its own and not yet the destination. */
  ghost predicate OwnFile(s: State, p: Proc)
    requires p.Staged? || p.Synced?
  {
    && |p.key| == KEY_BYTES && p.ino in s.inodes && s.dest != Some(p.ino)
    && s.inodes[p.ino].regular && s.inodes[p.ino].ownerOnly
    && (p.Synced? ==> s.inodes[p.ino].content == p.key == s.inodes[p.ino].synced)
  }

  ghost predicate ProcInv(s: State, p: Proc) {
    match p
    case Looking => true
    case Drawing => true
    case Staged(_, _) => OwnFile(s, p)
    case Synced(_, _) => OwnFile(s, p)
    case Linked(ino, key) => s.dest == Some(ino) && Published(s) == Some(Success(key))
    case Lost => Published(s).Some?
    case Adopted(key) => Published(s) == Some(Success(key))
    case Rejected => Published(s).Some? && Published(s).value.Failure?
  }

  predicate Prepares(p: Proc) { p.Staged? || p.Synced? }

  ghost predicate Inv(s: State) {
    && DestInv(s)
    && (forall pid | pid in s.procs :: pid in s.used && ProcInv(s, s.procs[pid]))
    && (forall p, q | p in s.procs && q in s.procs && Prepares(s.procs[p]) && Prepares(s.procs[q]) && s.procs[p].ino == s.procs[q].ino :: p == q)
    && (forall pid | pid in s.returned :: pid in s.used)
  }

  /** Whatever a step does, a published destination stays what it is, unless a power loss takes its entry. */
  lemma DestinationStays(s: State, step: Step)
    requires Inv(s) && Can(s, step) && step != PowerLoss(false) && s.dest.Some?
    ensures Do(s, step).dest == s.dest && Published(Do(s, step)) == Published(s) && DestInv(Do(s, step))
  {
    match step
    case Write(pid, _) => assert ProcInv(s, s.procs[pid]);
    case Sync(pid) => assert ProcInv(s, s.procs[pid]);
    case _ =>
  }

  /** The only step that creates a destination publishes a complete key. */
  lemma DestinationAppears(s: State, step: Step)
    requires Inv(s) && Can(s, step) && s.dest.None? && Do(s, step).dest.Some?
    ensures step.Link? && Published(Do(s, step)) == Some(Success(s.procs[step.pid].key)) && DestInv(Do(s, step))
  {
    assert step.Link? ==> ProcInv(s, s.procs[step.pid]);
  }

  lemma DoKeepsDest(s: State, step: Step)
    requires Inv(s) && Can(s, step)
    ensures DestInv(Do(s, step))
  {
    if s.dest.Some? && step != PowerLoss(false) {
      DestinationStays(s, step);
    } else if Do(s, step).dest.Some? {
      DestinationAppears(s, step);
    }
  }

  /** The file the step writes or publishes, if any. */
  function Touches(s: State, step: Step): Option<Ino>
    requires Can(s, step)
  {
    match step
    case Write(pid, _) => Some(s.procs[pid].ino)
    case Sync(pid) => Some(s.procs[pid].ino)
    case Link(pid) => Some(s.procs[pid].ino)
    case _ => None
  }

  /** What holds of an installer still holds after a step of another. */
  lemma OthersKeepProc(s: State, step: Step, p: Proc)
    requires Inv(s) && Can(s, step) && !step.PowerLoss? && ProcInv(s, p)
    requires Prepares(p) ==> Touches(s, step) != Some(p.ino)
    ensures ProcInv(Do(s, step), p)
  {
    if s.dest.Some? {
      DestinationStays(s, step);
    }
  }

  /** What holds of the installer that took the step. */
  lemma OwnStepKeepsProc(s: State, step: Step)
    requires Inv(s) && Can(s, step) && !step.PowerLoss? && step.pid in Do(s, step).procs
    ensures ProcInv(Do(s, step), Do(s, step).procs[step.pid])
  {
    assert step.pid in s.procs ==> ProcInv(s, s.procs[step.pid]);
    if s.dest.Some? {
      DestinationStays(s, step);
    } else if Do(s, step).dest.Some? {
      DestinationAppears(s, step);
    }
  }

  lemma DoKeepsProc(s: State, step: Step, pid: Pid)
    requires Inv(s) && Can(s, step) && pid in Do(s, step).procs
    ensures pid in Do(s, step).used && ProcInv(Do(s, step), Do(s, step).procs[pid])
  {
    if !step.PowerLoss? {
      if pid == step.pid {
        OwnStepKeepsProc(s, step);
      } else {
        OthersUntouched(s, step, pid);
        hide Do, DestInv, Published;
        OthersKeepProc(s, step, s.procs[pid]);
      }
    }
  }

  lemma OthersUntouched(s: State, step: Step, pid: Pid)
    requires Inv(s) && Can(s, step) && !step.PowerLoss? && pid != step.pid && pid in Do(s, step).procs
    ensures pid in s.procs && Do(s, step).procs[pid] == s.procs[pid] && pid in Do(s, step).used
    ensures Prepares(s.procs[pid]) ==> Touches(s, step) != Some(s.procs[pid].ino)
  {
    hide DestInv, Published, ReadKey;
    assert Touches(s, step).Some? ==> Prepares(s.procs[step.pid]);
  }

  /** A file being prepared was being prepared before by the same installer, or has just been staged. */
  lemma PreparedBefore(s: State, step: Step, pid: Pid)
    requires Can(s, step) && pid in Do(s, step).procs && Prepares(Do(s, step).procs[pid])
    ensures var ino := Do(s, step).procs[pid].ino;
            || (pid in s.procs && Prepares(s.procs[pid]) && s.procs[pid].ino == ino)
            || (step.Stage? && step.pid == pid && step.ino == ino && ino !in s.inodes)
  {
    hide ReadKey;
  }

  lemma DoKeepsOwnFiles(s: State, step: Step)
    requires Inv(s) && Can(s, step)
    ensures var t := Do(s, step);
            forall p, q | p in t.procs && q in t.procs && Prepares(t.procs[p]) && Prepares(t.procs[q]) && t.procs[p].ino == t.procs[q].ino :: p == q
  {
    hide DestInv, Published;
    assert forall pid | pid in s.procs && Prepares(s.procs[pid]) :: ProcInv(s, s.procs[pid]) && s.procs[pid].ino in s.inodes;
    hide Do, Can;
    forall pid | pid in Do(s, step).procs && Prepares(Do(s, step).procs[pid])
      ensures (pid in s.procs && Prepares(s.procs[pid]) && s.procs[pid].ino == Do(s, step).procs[pid].ino)
              || (step.Stage? && step.pid == pid && step.ino == Do(s, step).procs[pid].ino && step.ino !in s.inodes)
    {
      PreparedBefore(s, step, pid);
    }
  }

  lemma DoKeepsInv(s: State, step: Step)
    requires Inv(s) && Can(s, step)
    ensures Inv(Do(s, step))
  {
    var t := Do(s, step);
    DoKeepsDest(s, step);
    DoKeepsOwnFiles(s, step);
    forall pid | pid in t.procs ensures pid in t.used && ProcInv(t, t.procs[pid]) {
      DoKeepsProc(s, step, pid);
    }
    hide DestInv, ProcInv, Published, ReadKey, Prepares;
  }

  lemma {:induction false} RunKeepsInv(s: State, steps: seq<Step>)
    requires Inv(s) && IsRun(s, steps)
    ensures Inv(Exec(s, steps))
    decreases |steps|
  {
    if steps != [] {
      hide Inv, Can, Do;
      RunKeepsInv(s, steps[..|steps| - 1]);
      DoKeepsInv(Exec(s, steps[..|steps| - 1]), steps[|steps| - 1]);
    }
  }

  /** Once the destination exists it never changes, whatever installers do and wherever they crash. */
  lemma {:induction false} DestinationNeverChanges(s: State, steps: seq<Step>)
    requires Inv(s) && IsRun(s, steps) && EntryKept(steps) && s.dest.Some?
    ensures Exec(s, steps).dest == s.dest && Published(Exec(s, steps)) == Published(s)
    decreases |steps|
  {
    if steps != [] {
      hide Inv, Can, Do, Published;
      var front, last := steps[..|steps| - 1], steps[|steps| - 1];
      assert last in steps && forall step | step in front :: step in steps;
      DestinationNeverChanges(s, front);
      RunKeepsInv(s, front);
      DestinationStays(Exec(s, front), last);
    }
  }

  /** Starting without a destination, one that exists is a complete private key, even after power losses. */
  lemma {:induction false} DestinationIsComplete(s: State, steps: seq<Step>)
    requires Inv(s) && IsRun(s, steps) && (s.dest.Some? ==> Published(s).value.Success?)
    ensures var t := Exec(s, steps); t.dest.Some? ==> Published(t).Some? && Published(t).value.Success?
    decreases |steps|
  {
    if steps != [] {
      hide Inv, Can, Do, Published;
      var front, last := steps[..|steps| - 1], steps[|steps| - 1];
      DestinationIsComplete(s, front);
      RunKeepsInv(s, front);
      CompleteStep(Exec(s, front), last);
    }
  }

  lemma CompleteStep(s: State, step: Step)
    requires Inv(s) && Can(s, step) && (s.dest.Some? ==> Published(s).Some? && Published(s).value.Success?)
    ensures Do(s, step).dest.Some? ==> Published(Do(s, step)).Some? && Published(Do(s, step)).value.Success?
  {
    if s.dest.Some? && step != PowerLoss(false) {
      DestinationStays(s, step);
    } else if Do(s, step).dest.Some? {
      DestinationAppears(s, step);
    }
  }

  // ---- Agreement ---------------------------------------------------------------------------------

  /** Everyone who returned holds the published key. */
  ghost predicate Agreed(s: State) { forall pid | pid in s.returned :: Published(s) == Some(Success(s.returned[pid])) }

  lemma AgreedStep(s: State, step: Step)
    requires Inv(s) && Agreed(s) && Can(s, step) && step != PowerLoss(false)
    ensures Agreed(Do(s, step))
  {
    if s.dest.Some? {
      DestinationStays(s, step);
    }
    match step
    case Unlink(pid) => assert ProcInv(s, s.procs[pid]);
    case _ =>
  }

  /** All callers that return hold the same 32 bytes, those of the destination. */
  lemma {:induction false} InstallersAgree(s: State, steps: seq<Step>)
    requires Inv(s) && Agreed(s) && IsRun(s, steps) && EntryKept(steps)
    ensures var t := Exec(s, steps);
            && Agreed(t)
            && (forall p | p in t.returned :: |t.returned[p]| == KEY_BYTES)
            && (forall p, q | p in t.returned && q in t.returned :: t.returned[p] == t.returned[q])
    decreases |steps|
  {
    if steps != [] {
      hide Inv, Can, Do, Published;
      var front, last := steps[..|steps| - 1], steps[|steps| - 1];
      assert last in steps && forall step | step in front :: step in steps;
      InstallersAgree(s, front);
      RunKeepsInv(s, front);
      AgreedStep(Exec(s, front), last);
    }
    AgreedMeans(Exec(s, steps));
  }

  lemma AgreedMeans(s: State)
    requires Agreed(s)
    ensures forall p | p in s.returned :: |s.returned[p]| == KEY_BYTES
    ensures forall p, q | p in s.returned && q in s.returned :: s.returned[p] == s.returned[q]
  {
  }

  /** A destination that is no key fails closed: it is never replaced, and nobody returns a key. */
  lemma {:induction false} CorruptKeyFailsClosed(s: State, steps: seq<Step>)
    requires Inv(s) && IsRun(s, steps) && EntryKept(steps) && Published(s).Some? && Published(s).value.Failure?
    ensures Exec(s, steps).returned == s.returned && Published(Exec(s, steps)) == Published(s)
    decreases |steps|
  {
    if steps != [] {
      hide Inv, Can, Do, Published;
      var front, last := steps[..|steps| - 1], steps[|steps| - 1];
      assert last in steps && forall step | step in front :: step in steps;
      CorruptKeyFailsClosed(s, front);
      RunKeepsInv(s, front);
      CorruptStep(Exec(s, front), last);
    }
  }

  lemma CorruptStep(s: State, step: Step)
    requires Inv(s) && Can(s, step) && step != PowerLoss(false) && Published(s).Some? && Published(s).value.Failure?
    ensures Do(s, step).returned == s.returned && Published(Do(s, step)) == Published(s)
  {
    DestinationStays(s, step);
    match step
    case Unlink(pid) => assert ProcInv(s, s.procs[pid]);
    case _ =>
  }

  // ---- Losing the directory entry ----------------------------------------------------------------

  lemma RunStep(s: State, steps: seq<Step>, step: Step)
    requires IsRun(s, steps) && Can(Exec(s, steps), step)
    ensures IsRun(s, steps + [step]) && Exec(s, steps + [step]) == Do(Exec(s, steps), step)
  {
    hide Can, Do;
    assert (steps + [step])[..|steps + [step]| - 1] == steps;
  }

  /** The steps of one installer that meets no other. */
  function Install(pid: Pid, ino: Ino, key: Bytes): seq<Step> {
    [Start(pid)] + [Look(pid)] + [Stage(pid, ino, key)] + [Write(pid, |key|)] + [Sync(pid)] + [Link(pid)] + [Unlink(pid)]
  }

  /** A new installer that is about to draw its key. */
  ghost predicate Drawn(s: State, t: State, pid: Pid) {
    t.dest.None? && t.inodes == s.inodes && t.returned == s.returned && pid in t.procs && t.procs[pid].Drawing?
  }

  lemma InstallDraws(s: State, pid: Pid)
    requires s.dest.None? && pid !in s.used
    ensures IsRun(s, [Start(pid)] + [Look(pid)]) && Drawn(s, Exec(s, [Start(pid)] + [Look(pid)]), pid)
  {
    assert IsRun(s, []) && Exec(s, []) == s && [] + [Start(pid)] == [Start(pid)];
    RunStep(s, [], Start(pid));
    RunStep(s, [Start(pid)], Look(pid));
  }

  ghost predicate Prepared(s: State, t: State, pid: Pid, ino: Ino, key: Bytes) {
    && t.dest.None? && t.returned == s.returned && pid in t.procs && t.procs[pid] == Synced(ino, key)
    && ino in t.inodes && t.inodes[ino] == Inode(key, key, true, true)
  }

  lemma InstallPrepares(s: State, front: seq<Step>, pid: Pid, ino: Ino, key: Bytes)
    requires IsRun(s, front) && Drawn(s, Exec(s, front), pid) && ino !in s.inodes && |key| == KEY_BYTES
    ensures var steps := front + [Stage(pid, ino, key)] + [Write(pid, |key|)] + [Sync(pid)];
            IsRun(s, steps) && Prepared(s, Exec(s, steps), pid, ino, key)
  {
    hide IsRun, Exec;
    RunStep(s, front, Stage(pid, ino, key));
    RunStep(s, front + [Stage(pid, ino, key)], Write(pid, |key|));
    assert key[..|key|] == key;
    RunStep(s, front + [Stage(pid, ino, key)] + [Write(pid, |key|)], Sync(pid));
  }

  lemma InstallPublishes(s: State, front: seq<Step>, pid: Pid, ino: Ino, key: Bytes)
    requires IsRun(s, front) && Prepared(s, Exec(s, front), pid, ino, key)
    ensures var steps := front + [Link(pid)] + [Unlink(pid)];
            IsRun(s, steps) && Exec(s, steps).returned == s.returned[pid := key]
  {
    hide IsRun, Exec;
    RunStep(s, front, Link(pid));
    RunStep(s, front + [Link(pid)], Unlink(pid));
  }

  /** Without a destination a new installer, on its own, returns whatever key it draws; earlier callers keep theirs. */
  lemma InstallReturnsItsOwnKey(s: State, pid: Pid, ino: Ino, key: Bytes)
    requires s.dest.None? && pid !in s.used && ino !in s.inodes && |key| == KEY_BYTES
    ensures IsRun(s, Install(pid, ino, key)) && EntryKept(Install(pid, ino, key))
    ensures Exec(s, Install(pid, ino, key)).returned == s.returned[pid := key]
  {
    hide Exec, IsRun, Drawn, Prepared, Can, Do;
    var front := [Start(pid)] + [Look(pid)];
    InstallDraws(s, pid);
    InstallPrepares(s, front, pid, ino, key);
    var prepared := front + [Stage(pid, ino, key)] + [Write(pid, |key|)] + [Sync(pid)];
    InstallPublishes(s, prepared, pid, ino, key);
  }

  /** All keys that callers have returned are the same. */
  ghost predicate SameKeys(s: State) { forall p, q | p in s.returned && q in s.returned :: s.returned[p] == s.returned[q] }

  /** Every run that goes on from here without a further loss leaves all returned keys the same. */
  ghost predicate StaysAgreed(s: State) {
    forall steps | IsRun(s, steps) && EntryKept(steps) :: SameKeys(Exec(s, steps))
  }

  function OtherKey(key: Bytes): (other: Bytes)
    requires |key| == KEY_BYTES
    ensures |other| == KEY_BYTES && other != key
  {
    var other := [if key[0] == 0 then 1 else 0] + key[1..];
    assert other[0] != key[0];
    other
  }

  lemma {:induction false} Bounded(s: set<nat>) returns (n: nat)
    ensures forall x | x in s :: x < n
    decreases s
  {
    n := 0;
    if s != {} {
      var x :| x in s;
      var m := Bounded(s - {x});
      assert forall y | y in s :: y == x || y in s - {x};
      n := if x < m then m else x + 1;
    }
  }

  /** Without a destination, once someone has returned, some run ends with two callers holding different keys. */
  lemma LostEntryBreaksAgreement(s: State, first: Pid)
    requires s.dest.None? && first in s.returned && first in s.used && |s.returned[first]| == KEY_BYTES
    ensures !StaysAgreed(s)
  {
    hide Exec, IsRun, EntryKept;
    var pid := Bounded(s.used);
    var ino := Bounded(s.inodes.Keys);
    var key := OtherKey(s.returned[first]);
    assert pid !in s.used && ino !in s.inodes.Keys;
    InstallReturnsItsOwnKey(s, pid, ino, key);
    var t := Exec(s, Install(pid, ino, key));
    assert first in t.returned && pid in t.returned && t.returned[first] != t.returned[pid];
    assert !SameKeys(Exec(s, Install(pid, ino, key)));
  }

  lemma AgreedStaysAgreed(s: State)
    requires Inv(s) && Agreed(s)
    ensures StaysAgreed(s)
  {
    hide Inv, Agreed, Exec, IsRun, EntryKept;
    forall steps | IsRun(s, steps) && EntryKept(steps) ensures SameKeys(Exec(s, steps)) {
      InstallersAgree(s, steps);
    }
  }

  /**
   Once someone has returned, all later callers agree with them after a power loss exactly if it spares
   the directory entry: otherwise some run that follows ends with two callers holding different keys.
  */
  lemma PowerLossSparesAgreementExactly(s: State, kept: bool, first: Pid)
    requires Inv(s) && Agreed(s) && first in s.returned
    ensures StaysAgreed(Do(s, PowerLoss(kept))) <==> kept
  {
    var t := Do(s, PowerLoss(kept));
    AgreedMeans(s);
    if kept {
      DoKeepsInv(s, PowerLoss(kept));
      AgreedStep(s, PowerLoss(kept));
      AgreedStaysAgreed(t);
    } else {
      assert first in t.used && t.returned == s.returned && t.dest.None?;
      LostEntryBreaksAgreement(t, first);
    }
  }
}
