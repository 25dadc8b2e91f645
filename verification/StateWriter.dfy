/**
 The checkpoint writer as the program runs it, over a directory it updates in place. Each file
 operation may come out any way it likes; every call is shown to be a run of the step system.
 */
module StateWriter {
  import opened Basics
  import opened StateDocument
  import opened DiskModel
  import opened Checkpoint
  import CheckpointSafety
  import CheckpointReports

  /** What a replacement that reported `fault` may make of its target. */
  predicate Replaced(before: ReadResult, bytes: Bytes, fault: Option<Fault>, after: ReadResult) {
    match fault
    case Some(InstallFailed(_, stage)) =>
      if stage.Rename? then after == before || after == Data(bytes)
      else if stage.SyncDir? || stage.Remove? then after == Data(bytes)
      else after == before
    case _ => after == Data(bytes)
  }

  /** What the two files hold after a checkpoint that reported `fault`. */
  predicate FaultTable(codec: Codec, before: Disk, next: SavedState, fault: Option<Fault>, after: Disk) {
    var primary := before.Read(Primary);
    var backup := before.Read(Backup);
    if fault == Some(ReadFailed) then
      after == before
    else if fault.Some? && fault.value.target == Backup then
      && Readable(codec, primary)
      && after.Read(Primary) == primary
      && Replaced(backup, primary.bytes, fault, after.Read(Backup))
    else
      && after.Read(Backup) == (if Readable(codec, primary) then primary else backup)
      && Replaced(primary, codec.Encoded(next), fault, after.Read(Primary))
  }

  /** `d'` differs from `d` in no state file but possibly `target`. */
  ghost predicate OthersKept(d: Disk, d': Disk, target: Name) {
    forall n :: IsStateFile(n) && n != target ==> d'.Read(n) == d.Read(n)
  }

  /**
   `disk` is the directory. The ghost fields follow the checkpoint under way through the step
   system: `now` is its state, reached from `start` by the run `trace`, `events`
   of the program's own steps, which save `saving`.
   */
  class StateFiles {
    const codec: Codec
    var disk: Disk
    ghost var start: System
    ghost var now: System
    ghost var trace: seq<System>
    ghost var events: seq<Event>
    ghost var saving: SavedState

    ghost predicate Valid()
      reads this
    {
      && disk.Valid() && now.disk == disk && start.pc.Idle?
      && IsRun(codec, trace, events) && trace[0] == start && trace[|events|] == now
      && OwnSteps(events, saving)
    }

    constructor (codec: Codec, disk: Disk, ghost start: System)
      requires disk.Valid() && start.disk == disk && start.pc.Idle?
      ensures Valid() && this.codec == codec && this.disk == disk && this.start == this.now == start
    {
      this.codec, this.disk := codec, disk;
      this.start, this.now, this.trace, this.events, this.saving := start, start, [start], [], EMPTY_STATE;
    }

    /** The directory became `after` by the step `e` of the system. */
    method Do(ghost e: Event, after: Disk, ghost next: System)
      requires Valid() && after.Valid() && Step(codec, now, e, next) && next.disk == after
      requires if events == [] then e == Begin(saving) else e.ReadCurrent? || e.Operation?
      modifies this`disk, this`now, this`trace, this`events
      ensures Valid() && disk == after && now == next && events != []
    {
      disk, now := after, next;
      trace, events := trace + [next], events + [e];
    }

    /** A file operation came out as `outcome` and left the directory as `after`. */
    method Operate(outcome: Outcome, id: nat, left: Bytes, after: Disk)
      requires Valid() && now.pc.Installing? && OperationAllowed(now, outcome, id)
      requires after.Valid() && after == AfterOperation(codec, now, outcome, id, left).disk
      modifies this`disk, this`now, this`trace, this`events
      ensures Valid() && disk == after && now == AfterOperation(codec, old(now), outcome, id, left) && events != []
    {
      Do(Operation(outcome, id, left), after, AfterOperation(codec, now, outcome, id, left));
    }

    /** The temporary file `tmp` is ready for the operation `stage`. */
    ghost predicate At(stage: Stage, target: Name, bytes: Bytes, tmp: nat, ino: nat)
      reads this
    {
      && now.pc.Installing?
      && now.pc == Installing(now.pc.next, target, bytes, stage, tmp, ino, None)
      && disk.Entry(Temp(tmp)) == Some(ino)
      && (forall n :: IsStateFile(n) ==> disk.Entry(n) != Some(ino))
    }

    /** Create a temporary file under a name nothing in the directory has. */
    method CreateTemp(target: Name, bytes: Bytes) returns (ok: bool, tmp: nat, ino: nat)
      requires Valid() && now.pc.Installing? && now.pc == StartInstall(now.pc.next, target, bytes)
      modifies this`disk, this`now, this`trace, this`events
      ensures Valid() && events != [] && OthersKept(old(disk), disk, Temp(tmp))
      ensures ok ==> At(Chmod, target, bytes, tmp, ino) && now.pc.next == old(now.pc.next)
      ensures !ok ==> now.pc.Idle? && now.result == Some(Some(InstallFailed(target, Create)))
    {
      var outcome: Outcome := *;
      tmp, ino := *, |disk.inodes|;
      if Temp(tmp) in disk.dir {
        outcome := Failure;
      }
      Operate(outcome, tmp, [], if outcome.Success? then disk.Created(tmp) else disk);
      ok := outcome.Success?;
    }

    /** The fault, if any, of the writing part of a replacement. */
    ghost predicate Stopped(before: System, fault: Option<Fault>, target: Name)
      reads this
    {
      fault.Some? ==>
        && before.pc.Installing? && now.pc == before.pc.(stage := LateClose, fault := fault)
        && fault.value.InstallFailed? && fault.value.target == target
        && !fault.value.stage.Rename? && !fault.value.stage.SyncDir? && !fault.value.stage.Remove?
    }

    /** Write the bytes through the buffer and flush it. */
    method WriteBuffered(target: Name, bytes: Bytes, tmp: nat, ino: nat) returns (fault: Option<Fault>)
      requires Valid() && IsStateFile(target) && At(Write, target, bytes, tmp, ino)
      modifies this`disk, this`now, this`trace, this`events
      ensures Valid() && OthersKept(old(disk), disk, Temp(tmp))
      ensures fault.None? ==> At(Sync, target, bytes, tmp, ino) && disk.inodes[ino].content == bytes
      ensures Stopped(old(now), fault, target)
      ensures now == old(now).(disk := disk, pc := now.pc) && now.pc.next == old(now.pc.next)
    {
      var outcome: Outcome := *;
      var left: Bytes := *;
      Operate(outcome, 0, left, disk.Filled(ino, left));
      if !outcome.Success? {
        return Some(InstallFailed(target, Write));
      }
      outcome, left := *, *;
      Operate(outcome, 0, left, disk.Filled(ino, if outcome.Success? then bytes else left));
      if !outcome.Success? {
        return Some(InstallFailed(target, Flush));
      }
      return None;
    }

    /** Write and sync the temporary file. */
    method Fill(target: Name, bytes: Bytes, tmp: nat, ino: nat) returns (fault: Option<Fault>)
      requires Valid() && IsStateFile(target) && At(Chmod, target, bytes, tmp, ino)
      modifies this`disk, this`now, this`trace, this`events
      ensures Valid() && OthersKept(old(disk), disk, Temp(tmp))
      ensures fault.None? ==> At(Close, target, bytes, tmp, ino) && disk.inodes[ino].content == bytes
      ensures Stopped(old(now), fault, target)
      ensures now == old(now).(disk := disk, pc := now.pc) && now.pc.next == old(now.pc.next)
    {
      var outcome: Outcome := *;
      Operate(outcome, 0, [], disk);
      if !outcome.Success? {
        return Some(InstallFailed(target, Chmod));
      }
      fault := WriteBuffered(target, bytes, tmp, ino);
      if fault.Some? {
        return;
      }
      outcome := *;
      Operate(outcome, 0, [], if outcome.Success? then disk.FileSynced(ino) else disk);
      if !outcome.Success? {
        return Some(InstallFailed(target, Sync));
      }
    }

    /** Rename the closed temporary file over the target and sync the directory. */
    method RenameAndSync(target: Name, bytes: Bytes, tmp: nat, ino: nat) returns (fault: Option<Fault>)
      requires Valid() && IsStateFile(target) && At(Rename, target, bytes, tmp, ino)
      requires disk.inodes[ino].content == bytes
      modifies this`disk, this`now, this`trace, this`events
      ensures Valid() && OthersKept(old(disk), disk, target)
      ensures fault.Some? ==> fault.value.InstallFailed? && fault.value.target == target && !fault.value.stage.Remove?
      ensures Replaced(old(disk.Read(target)), bytes, fault, disk.Read(target))
      ensures now == old(now).(disk := disk, pc := old(now.pc).(stage := Remove, fault := fault))
    {
      var outcome: Outcome := *;
      Operate(outcome, 0, [], if outcome.Failure? then disk else disk.Renamed(Temp(tmp), target));
      if !outcome.Success? {
        return Some(InstallFailed(target, Rename));
      }
      outcome := *;
      Operate(outcome, 0, [], if outcome.Success? then disk.DirSynced() else disk);
      if !outcome.Success? {
        return Some(InstallFailed(target, SyncDir));
      }
      return None;
    }

    /** Close the temporary file, rename it over the target and sync the directory. */
    method Install(target: Name, bytes: Bytes, tmp: nat, ino: nat) returns (fault: Option<Fault>)
      requires Valid() && IsStateFile(target) && At(Close, target, bytes, tmp, ino)
      requires disk.inodes[ino].content == bytes
      modifies this`disk, this`now, this`trace, this`events
      ensures Valid() && OthersKept(old(disk), disk, target)
      ensures fault.Some? ==> fault.value.InstallFailed? && fault.value.target == target && !fault.value.stage.Remove?
      ensures Replaced(old(disk.Read(target)), bytes, fault, disk.Read(target))
      ensures now == old(now).(disk := disk, pc := old(now.pc).(stage := Remove, fault := fault))
    {
      var outcome: Outcome := *;
      Operate(outcome, 0, [], disk);
      if !outcome.Success? {
        return Some(InstallFailed(target, Close));
      }
      fault := RenameAndSync(target, bytes, tmp, ino);
    }

    /** Remove the temporary file and report; on success the backup is followed by the primary. */
    method RemoveTemp(target: Name, tmp: nat, earlier: Option<Fault>) returns (fault: Option<Fault>)
      requires Valid() && now.pc.Installing? && now.pc.target == target && now.pc.tmp == tmp && now.pc.fault == earlier
      requires now.pc.stage.Remove?
      modifies this`disk, this`now, this`trace, this`events
      ensures Valid() && events != [] && OthersKept(old(disk), disk, Temp(tmp))
      ensures fault == earlier || (earlier.None? && fault == Some(InstallFailed(target, Remove)))
      ensures fault.None? && target == Backup ==>
                now.pc == StartInstall(old(now.pc.next), Primary, codec.Encoded(old(now.pc.next)))
      ensures fault.Some? || target != Backup ==> now.pc.Idle? && now.result == Some(fault)
    {
      var outcome: Outcome := *;
      Operate(outcome, 0, [], if outcome.Failure? then disk else disk.Removed(Temp(tmp)));
      fault := if earlier.None? && !outcome.Success? then Some(InstallFailed(target, Remove)) else earlier;
    }

    /** The deferred end of a replacement: close if needed, remove the temporary file, report. */
    method Cleanup(target: Name, tmp: nat, earlier: Option<Fault>, closed: bool) returns (fault: Option<Fault>)
      requires Valid() && now.pc.Installing? && now.pc.target == target && now.pc.tmp == tmp && now.pc.fault == earlier
      requires now.pc.stage == if closed then Remove else LateClose
      modifies this`disk, this`now, this`trace, this`events
      ensures Valid() && events != [] && OthersKept(old(disk), disk, Temp(tmp))
      ensures fault == earlier || (earlier.None? && fault == Some(InstallFailed(target, Remove)))
      ensures fault.None? && target == Backup ==>
                now.pc == StartInstall(old(now.pc.next), Primary, codec.Encoded(old(now.pc.next)))
      ensures fault.Some? || target != Backup ==> now.pc.Idle? && now.result == Some(fault)
    {
      if !closed {
        var outcome: Outcome := *;
        Operate(outcome, 0, [], disk);
      }
      fault := RemoveTemp(target, tmp, earlier);
    }

    /** Replace `target` by `bytes` through a temporary file, which is closed and removed in the end. */
    method AtomicReplace(target: Name, bytes: Bytes) returns (fault: Option<Fault>)
      requires Valid() && IsStateFile(target)
      requires now.pc.Installing? && now.pc == StartInstall(now.pc.next, target, bytes)
      modifies this`disk, this`now, this`trace, this`events
      ensures Valid() && events != [] && OthersKept(old(disk), disk, target)
      ensures fault.Some? ==> fault.value.InstallFailed? && fault.value.target == target
      ensures Replaced(old(disk.Read(target)), bytes, fault, disk.Read(target))
      ensures fault.None? && target == Backup ==>
                now.pc == StartInstall(old(now.pc.next), Primary, codec.Encoded(old(now.pc.next)))
      ensures fault.Some? || target == Primary ==> now.pc.Idle? && now.result == Some(fault)
    {
      var ok, tmp, ino := CreateTemp(target, bytes);
      if !ok {
        return Some(InstallFailed(target, Create));
      }
      fault := Fill(target, bytes, tmp, ino);
      var closed := fault.None?;
      if fault.None? {
        fault := Install(target, bytes, tmp, ino);
      }
      fault := Cleanup(target, tmp, fault, closed);
    }

    /** Save `next`: copy a decodable primary to the backup, then install the new primary. */
    method WriteStateWithOps(next: SavedState) returns (fault: Option<Fault>)
      requires Valid() && now.pc.Idle?
      modifies this
      ensures Valid() && start == old(now) && saving == next && now.pc.Idle? && now.result == Some(fault)
      ensures FaultTable(codec, old(disk), next, fault, disk) && events != []
    {
      start, trace, events, saving := now, [now], [], next;
      Do(Begin(next), disk, now.(pc := Reading(next), attempts := now.attempts + [next]));
      var ok: bool := *;
      var current := disk.Read(Primary);
      Do(ReadCurrent(ok), disk, AfterRead(codec, now, ok));
      if !ok {
        return Some(ReadFailed);
      }
      if Readable(codec, current) {
        fault := AtomicReplace(Backup, current.bytes);
        if fault.Some? {
          return;
        }
      }
      fault := AtomicReplace(Primary, codec.Encoded(next));
    }

    /** The same, reporting exactly the first operation that failed, and success when none did. */
    method WriteState(next: SavedState) returns (fault: Option<Fault>)
      requires Valid() && now.pc.Idle?
      modifies this
      ensures Valid() && start == old(now) && saving == next && now.pc.Idle? && now.result == Some(fault)
      ensures FaultTable(codec, old(disk), next, fault, disk)
      ensures events != [] && fault == CheckpointReports.FirstFault(trace, events, 0, |events|)
      ensures fault.None? <==> forall m :: 0 < m < |events| ==> CheckpointReports.Succeeded(events[m])
    {
      fault := WriteStateWithOps(next);
      Reported(codec, trace, events, next);
    }
  }

  lemma Reported(codec: Codec, trace: seq<System>, events: seq<Event>, next: SavedState)
    requires IsRun(codec, trace, events) && OwnSteps(events, next) && events != [] && trace[|events|].pc.Idle?
    ensures trace[|events|].result == Some(CheckpointReports.FirstFault(trace, events, 0, |events|))
    ensures trace[|events|].result == Some(None) <==> forall m :: 0 < m < |events| ==> CheckpointReports.Succeeded(events[m])
  {
    assert Step(codec, trace[0], events[0], trace[1]);
    CheckpointReports.ReportIsFirstFault(codec, trace, events, 0, |events|);
    CheckpointReports.SuccessMeansAllSucceeded(codec, trace, events, 0, |events|);
  }

  /**
   A checkpoint over settled files that load `prev`: whatever it reports, and wherever along the
   way the power fails, the files load `prev` or `next`. Success leaves settled files that load
   `next`, ready for the next such checkpoint.
   */
  method CheckpointSettled(codec: Codec, disk: Disk, ghost prev: SavedState, next: SavedState)
    returns (fault: Option<Fault>, files: StateFiles)
    requires codec.Lawful() && disk.Settled() && CheckpointSafety.Gives(codec, disk, prev) && next.Acceptable()
    ensures fault.None? ==> files.disk.Settled() && CheckpointSafety.Gives(codec, files.disk, next)
    ensures forall i, after :: 0 <= i < |files.trace| && CrashTo(files.trace[i].disk, after) ==>
              CheckpointSafety.Gives(codec, after, prev) || CheckpointSafety.Gives(codec, after, next)
  {
    ghost var start := CheckpointSafety.AtRest(disk, [prev, next]);
    files := new StateFiles(codec, disk, start);
    fault := files.WriteState(next);
    EncodedDecodes(codec, next);
    forall i, after | 0 <= i < |files.trace| && CrashTo(files.trace[i].disk, after)
      ensures CheckpointSafety.Gives(codec, after, prev) || CheckpointSafety.Gives(codec, after, next)
    {
      CrashAlongTheWay(codec, prev, next, files.trace, files.events, i, after);
    }
    if fault.None? {
      SuccessAtTheEnd(codec, prev, next, files.trace, files.events);
    }
  }

  /** Steps of the writer itself, saving `next`. */
  predicate OwnSteps(events: seq<Event>, next: SavedState) {
    forall k :: 0 <= k < |events| ==> if k == 0 then events[k] == Begin(next) else events[k].ReadCurrent? || events[k].Operation?
  }

  /** A run of the writer's own steps over settled files that load `prev`. */
  ghost predicate OwnRun(codec: Codec, prev: SavedState, next: SavedState, trace: seq<System>, events: seq<Event>) {
    && IsRun(codec, trace, events) && OwnSteps(events, next)
    && trace[0] == CheckpointSafety.AtRest(trace[0].disk, [prev, next])
    && trace[0].disk.Settled() && CheckpointSafety.Gives(codec, trace[0].disk, prev)
  }

  lemma OwnRunIsUndisturbed(codec: Codec, prev: SavedState, next: SavedState, trace: seq<System>, events: seq<Event>)
    requires next.Acceptable() && OwnRun(codec, prev, next, trace, events)
    ensures CheckpointSafety.UndisturbedRun(codec, trace, events)
    ensures CheckpointSafety.Starts(codec, trace[0], [prev, next])
  {
    forall k | 0 <= k < |events| && events[k].ReadCurrent?
      ensures CheckpointSafety.Storable(trace[k])
    {
      CheckpointSafety.AcceptableIsStorable(codec, trace, events, k);
    }
    assert trace[0].attempts[0] == prev;
  }

  /** A run of the writer that ends with a report of success has just acknowledged. */
  lemma SuccessAtTheEnd(codec: Codec, prev: SavedState, next: SavedState, trace: seq<System>, events: seq<Event>)
    requires codec.Lawful() && next.Acceptable() && OwnRun(codec, prev, next, trace, events)
    requires trace[|events|].pc.Idle? && trace[|events|].result == Some(None)
    ensures trace[|events|].disk.Settled()
  {
    OwnRunIsUndisturbed(codec, prev, next, trace, events);
    var i := |events| - 1;
    assert Step(codec, trace[i], events[i], trace[i + 1]);
    CheckpointSafety.AcknowledgedSettles(codec, trace, events, [prev, next], trace[i].pc.next, i);
  }

  lemma CrashAlongTheWay(
      codec: Codec, prev: SavedState, next: SavedState, trace: seq<System>, events: seq<Event>, i: nat, after: Disk)
    requires codec.Lawful() && next.Acceptable() && OwnRun(codec, prev, next, trace, events) && i < |trace|
    requires CrashTo(trace[i].disk, after)
    ensures CheckpointSafety.Gives(codec, after, prev) || CheckpointSafety.Gives(codec, after, next)
  {
    OwnRunIsUndisturbed(codec, prev, next, trace, events);
    var states := trace[..i + 1] + [trace[i].(disk := after, pc := Idle)];
    var steps := events[..i] + [PowerFailure(after)];
    CheckpointSafety.SettledIsCrashSafe(codec, trace[0].disk, prev, next);
    assert CheckpointSafety.CheckpointRun(codec, trace[0], next, states, steps);
    assert LoadOf(codec, states[i + 1].disk).Loaded?;
  }

  /** A first checkpoint of a state without any durable field turns an empty start into a failing load. */
  lemma EmptyDocumentFailsLoad(codec: Codec, before: Disk, next: SavedState, after: Disk)
    requires codec.Lawful() && before.Read(Primary) == NotExist && before.Read(Backup) == NotExist
    requires FaultTable(codec, before, next, None, after)
    ensures LoadOf(codec, before).Loaded?
    ensures LoadOf(codec, after).Failed? <==> !next.Acceptable()
  {
    EncodedDecodes(codec, next);
  }
}
