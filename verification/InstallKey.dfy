/** Loading or creating the install key, as the file-system steps one caller takes among others. */
module InstallKey {
  import opened Wrappers
  import opened InstallKeyRuns

  /** A directory in which nobody is installing yet: without the key file, or with whatever was found there. */
  function Found(file: Option<Inode>): State {
    State(if file.Some? then map[0 := file.value] else map[], if file.Some? then Some(0) else None,
          map[], map[], {}, map[], {})
  }

  /** A step of another installer leaves this one and the file it prepares alone. */
  lemma OthersLeaveMine(s: State, step: Step, pid: Pid)
    requires Inv(s) && Can(s, step) && !step.PowerLoss? && step.pid != pid && pid in s.procs
    ensures var t := Do(s, step);
            && pid in t.procs && t.procs[pid] == s.procs[pid]
            && (Prepares(s.procs[pid]) ==> s.procs[pid].ino in t.inodes && t.inodes[s.procs[pid].ino] == s.inodes[s.procs[pid].ino])
  {
    assert ProcInv(s, s.procs[pid]);
    assert step.pid in s.procs ==> ProcInv(s, s.procs[step.pid]);
    hide DestInv, Published;
  }

  /** A step that can be taken makes the run one longer. */
  lemma RunGrows(s: State, run: seq<Step>, step: Step)
    requires IsRun(s, run) && EntryKept(run) && Can(Exec(s, run), step) && step != PowerLoss(false)
    ensures IsRun(s, run + [step]) && EntryKept(run + [step])
    ensures Exec(s, run + [step]) == Do(Exec(s, run), step)
  {
    hide Can, Do;
    var longer := run + [step];
    assert longer[..|longer| - 1] == run && longer[|longer| - 1] == step;
  }

  /** The state after those of the steps, in their order, that other installers can take. */
  function WithOthers(s: State, pid: Pid, steps: seq<Step>): State {
    if steps == [] then s
    else
      var t, step := WithOthers(s, pid, steps[..|steps| - 1]), steps[|steps| - 1];
      if !step.PowerLoss? && step.pid != pid && Can(t, step) then Do(t, step) else t
  }

  class Installation {
    var now: State
    ghost const origin: State
    ghost var trail: seq<Step>

    ghost predicate Valid()
      reads this
    {
      && Inv(origin) && Agreed(origin) && IsRun(origin, trail) && EntryKept(trail)
      && now == Exec(origin, trail)
    }

    constructor (file: Option<Inode>)
      requires file.Some? ==> file.value.content == file.value.synced
      ensures Valid() && now == Found(file)
      ensures if file.Some? then now.dest.Some? && now.dest.value in now.inodes && now.inodes[now.dest.value] == file.value
              else now.dest.None? && now.inodes == map[]
    {
      now, origin, trail := Found(file), Found(file), [];
    }

    lemma Invariant()
      requires Valid()
      ensures Inv(now) && Agreed(now)
    {
      RunKeepsInv(origin, trail);
      InstallersAgree(origin, trail);
    }

    method Take(step: Step)
      requires Valid() && Can(now, step) && step != PowerLoss(false)
      modifies this
      ensures Valid() && now == Do(old(now), step) && trail == old(trail) + [step]
      ensures old(now).dest.Some? ==> now.dest == old(now).dest && Published(now) == Published(old(now))
    {
      Invariant();
      if now.dest.Some? {
        DestinationStays(now, step);
      }
      RunGrows(origin, trail, step);
      hide Can, Do, Exec, IsRun, EntryKept, Inv, Agreed, Published;
      now := Do(now, step);
      trail := trail + [step];
    }

    /** Lets other installers take the given steps, as far as they can. */
    method RunOthers(pid: Pid, steps: seq<Step>)
      requires Valid() && pid in now.procs && Prepares(now.procs[pid]) && now.procs[pid].ino in now.inodes
      modifies this
      ensures Valid() && old(trail) <= trail
      ensures pid in now.procs && now.procs[pid] == old(now).procs[pid] && now.procs[pid].ino in now.inodes
      ensures now.inodes[now.procs[pid].ino] == old(now).inodes[now.procs[pid].ino]
      ensures steps == [] ==> now == old(now)
      ensures now == WithOthers(old(now), pid, steps)
    {
      hide Can, Do, Exec, IsRun, EntryKept, Published;
      for k := 0 to |steps|
        invariant Valid() && old(trail) <= trail && (k == 0 ==> now == old(now))
        invariant now == WithOthers(old(now), pid, steps[..k])
        invariant pid in now.procs && now.procs[pid] == old(now).procs[pid] && now.procs[pid].ino in now.inodes
        invariant now.inodes[now.procs[pid].ino] == old(now).inodes[now.procs[pid].ino]
      {
        var step := steps[k];
        assert steps[..k + 1][..k] == steps[..k];
        if !step.PowerLoss? && step.pid != pid && Can(now, step) {
          Invariant();
          OthersLeaveMine(now, step, pid);
          Take(step);
        }
      }
      assert steps[..|steps|] == steps;
    }

    /** Writes the key to a file of its own and syncs it. */
    method Prepare(pid: Pid, ino: Ino, key: Bytes)
      requires Valid() && pid in now.procs && now.procs[pid].Drawing? && ino !in now.inodes && |key| == KEY_BYTES
      modifies this
      ensures Valid() && old(trail) <= trail && now.dest == old(now).dest
      ensures pid in now.procs && now.procs[pid] == Synced(ino, key)
      ensures ino in now.inodes && now.inodes[ino] == Inode(key, key, true, true)
    {
      hide Exec, IsRun, EntryKept, Published;
      Take(Stage(pid, ino, key));
      Take(Write(pid, |key|));
      assert key[..|key|] == key;
      Take(Sync(pid));
    }

    /** Publishes the prepared file by a hard link, or adopts what another installer published. */
    method Publish(pid: Pid, ino: Ino, key: Bytes) returns (r: Result<Bytes, KeyError>)
      requires Valid() && pid in now.procs && now.procs[pid] == Synced(ino, key)
      requires ino in now.inodes && now.inodes[ino] == Inode(key, key, true, true) && |key| == KEY_BYTES
      modifies this
      ensures Valid() && old(trail) <= trail && Published(now) == Some(r) && pid !in now.procs && pid !in now.staging
      ensures old(now).dest.None? ==> r == Success(key)
      ensures r.Success? ==> pid in now.returned && now.returned[pid] == r.value
      ensures r.Failure? ==> pid in now.failed
    {
      Invariant();
      assert Published(now).Some? <==> now.dest.Some?;
      hide Exec, IsRun, EntryKept, Inv, Agreed;
      Take(Link(pid));
      if now.procs[pid].Linked? {
        Take(Unlink(pid));
        return Success(key);
      }
      r := Adopt(pid);
    }

    /** Reads the key another installer published and gives up the prepared file. */
    method Adopt(pid: Pid) returns (r: Result<Bytes, KeyError>)
      requires Valid() && pid in now.procs && now.procs[pid].Lost? && now.dest.Some? && now.dest.value in now.inodes
      modifies this
      ensures Valid() && old(trail) <= trail && Published(old(now)) == Some(r) && Published(now) == Some(r)
      ensures pid !in now.procs && pid !in now.staging
      ensures r.Success? ==> pid in now.returned && now.returned[pid] == r.value
      ensures r.Failure? ==> pid in now.failed
    {
      hide Exec, IsRun, EntryKept, Inv, Agreed;
      r := ReadKey(now.inodes[now.dest.value]);
      Take(Reread(pid));
      Take(Unlink(pid));
    }

    /**
     Loads the key, or creates it once: key and ino are what this caller would draw, and meanwhile the
     steps other installers take before it links. A caller that returns holds the published key.
    */
    method LoadOrCreateKey(pid: Pid, key: Bytes, ino: Ino, meanwhile: seq<Step>) returns (r: Result<Bytes, KeyError>)
      requires Valid() && pid !in now.used && |key| == KEY_BYTES && ino !in now.inodes
      modifies this
      ensures Valid() && old(trail) <= trail && Published(now) == Some(r)
      ensures r.Success? ==> |r.value| == KEY_BYTES && pid in now.returned && now.returned[pid] == r.value
      ensures r.Failure? ==> pid in now.failed
      ensures old(now).dest.Some? ==> Published(now) == Published(old(now))
      ensures old(now).dest.None? && meanwhile == [] ==> r == Success(key)
      ensures pid !in now.procs
    {
      Invariant();
      hide Exec, IsRun, EntryKept;
      assert pid !in now.procs;
      Take(Start(pid));
      if now.dest.Some? {
        r := ReadKey(now.inodes[now.dest.value]);
        Take(Look(pid));
        return;
      }
      Take(Look(pid));
      Prepare(pid, ino, key);
      hide Published, Inv, Agreed;
      RunOthers(pid, meanwhile);
      r := Publish(pid, ino, key);
      KeyLength();
    }

    lemma KeyLength()
      requires Valid()
      ensures Published(now).Some? && Published(now).value.Success? ==> |Published(now).value.value| == KEY_BYTES
    {
    }
  }
}
