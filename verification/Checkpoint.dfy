/**
 The checkpoint writer as a system of small steps over the disk. Every file operation is one
 step that may succeed, fail, or fail after taking effect; a kill, a power failure or an outside
 change of the primary may fall between any two of them.
 */
module Checkpoint {
  import opened Basics
  import opened StateDocument
  import opened DiskModel

  /** The operations of one atomic replacement, in order; the last two run as deferred cleanup. */
  datatype Stage = Create | Chmod | Write | Flush | Sync | Close | Rename | SyncDir | LateClose | Remove

  datatype Fault = ReadFailed | InstallFailed(target: Name, stage: Stage)

  datatype Pc =
    | Idle
    | Reading(next: SavedState)
    | Installing(next: SavedState, target: Name, bytes: Bytes, stage: Stage, tmp: nat, ino: nat, fault: Option<Fault>)

  datatype Outcome = Success | Failure | FailureAfterEffect

  /**
   `attempts` lists the states that checkpoints tried to save, after the states a load could
   give at the start; `floor` is the newest of them whose checkpoint reported success (zero
   before the first). `copied` lists the decodable primaries that checkpoints read.
   */
  datatype System = System(
    disk: Disk,
    pc: Pc,
    attempts: seq<SavedState>,
    floor: nat,
    copied: seq<Bytes>,
    result: Option<Option<Fault>>)

  datatype Event =
    | Begin(next: SavedState)
    | ReadCurrent(ok: bool)
    | Operation(outcome: Outcome, id: nat, left: Bytes)
    | Kill
    | PowerFailure(after: Disk)
    | PrimaryChange(changed: Disk)

  ghost predicate Step(codec: Codec, s: System, e: Event, s': System) {
    match e
    case Begin(next) =>
      && s.pc.Idle?
      && s' == s.(pc := Reading(next), attempts := s.attempts + [next])
    case ReadCurrent(ok) =>
      && s.pc.Reading?
      && s' == AfterRead(codec, s, ok)
    case Operation(outcome, id, left) =>
      && s.pc.Installing?
      && OperationAllowed(s, outcome, id)
      && s' == AfterOperation(codec, s, outcome, id, left)
    case Kill =>
      s' == s.(pc := Idle)
    case PowerFailure(after) =>
      && CrashTo(s.disk, after)
      && s' == s.(disk := after, pc := Idle)
    case PrimaryChange(changed) =>
      && PrimaryChangedTo(s.disk, changed)
      && s' == s.(disk := changed)
  }

  function StartInstall(next: SavedState, target: Name, bytes: Bytes): Pc {
    Installing(next, target, bytes, Create, 0, 0, None)
  }

  /** Reading the primary decides whether it is first copied to the backup. */
  function AfterRead(codec: Codec, s: System, ok: bool): System
    requires s.pc.Reading?
  {
    var current := s.disk.Read(Primary);
    if !ok then s.(pc := Idle, result := Some(Some(ReadFailed)))
    else if Readable(codec, current) then
      s.(pc := StartInstall(s.pc.next, Backup, current.bytes), copied := s.copied + [current.bytes])
    else s.(pc := StartInstall(s.pc.next, Primary, codec.Encoded(s.pc.next)))
  }

  /** A temporary file gets a name nothing else uses, and the named files are still there. */
  predicate OperationAllowed(s: System, outcome: Outcome, id: nat)
    requires s.pc.Installing?
  {
    match s.pc.stage
    case Create => outcome.Success? ==> Temp(id) !in s.disk.dir
    case Write => s.pc.ino < |s.disk.inodes|
    case Flush => s.pc.ino < |s.disk.inodes|
    case Sync => s.pc.ino < |s.disk.inodes|
    case Rename => Temp(s.pc.tmp) in s.disk.dir && Temp(s.pc.tmp) != s.pc.target
    case _ => true
  }

  function AfterOperation(codec: Codec, s: System, outcome: Outcome, id: nat, left: Bytes): System
    requires s.pc.Installing?
    requires OperationAllowed(s, outcome, id)
  {
    var d := s.disk;
    var at := (stage: Stage) => s.pc.(stage := stage);
    var failed := (stage: Stage) => s.pc.(stage := stage, fault := Some(InstallFailed(s.pc.target, s.pc.stage)));
    match s.pc.stage
    case Create =>
      if outcome.Success? then s.(disk := d.Created(id), pc := s.pc.(stage := Chmod, tmp := id, ino := |d.inodes|))
      else s.(pc := Idle, result := Some(Some(InstallFailed(s.pc.target, Create))))
    case Chmod =>
      if outcome.Success? then s.(pc := at(Write)) else s.(pc := failed(LateClose))
    case Write =>
      s.(disk := d.Filled(s.pc.ino, left), pc := if outcome.Success? then at(Flush) else failed(LateClose))
    case Flush =>
      if outcome.Success? then s.(disk := d.Filled(s.pc.ino, s.pc.bytes), pc := at(Sync))
      else s.(disk := d.Filled(s.pc.ino, left), pc := failed(LateClose))
    case Sync =>
      if outcome.Success? then s.(disk := d.FileSynced(s.pc.ino), pc := at(Close)) else s.(pc := failed(LateClose))
    case Close =>
      s.(pc := if outcome.Success? then at(Rename) else failed(Remove))
    case Rename =>
      s.(disk := if outcome.Failure? then d else d.Renamed(Temp(s.pc.tmp), s.pc.target),
         pc := if outcome.Success? then at(SyncDir) else failed(Remove))
    case SyncDir =>
      if outcome.Success? then s.(disk := d.DirSynced(), pc := at(Remove)) else s.(pc := failed(Remove))
    case LateClose =>
      s.(pc := at(Remove))
    case Remove =>
      AfterRemove(codec, s, outcome)
  }

  /** The deferred removal ends the replacement: report, or go on from the backup to the primary. */
  function AfterRemove(codec: Codec, s: System, outcome: Outcome): System
    requires s.pc.Installing?
  {
    var d := if outcome.Failure? then s.disk else s.disk.Removed(Temp(s.pc.tmp));
    var fault :=
      if s.pc.fault.Some? || outcome.Success? then s.pc.fault else Some(InstallFailed(s.pc.target, Remove));
    if fault.Some? then
      s.(disk := d, pc := Idle, result := Some(fault))
    else if s.pc.target == Backup then
      s.(disk := d, pc := StartInstall(s.pc.next, Primary, codec.Encoded(s.pc.next)))
    else
      s.(disk := d, pc := Idle, result := Some(None),
         floor := if s.pc.next.Acceptable() && |s.attempts| > 0 then |s.attempts| - 1 else s.floor)
  }

  /** `states` are the successive states of a run and `events` its steps. */
  ghost predicate IsRun(codec: Codec, states: seq<System>, events: seq<Event>) {
    && |states| == |events| + 1
    && (forall i :: 0 <= i < |events| ==> Step(codec, states[i], events[i], states[i + 1]))
  }

  /** A load, in which reading either file may fail. */
  function LoadReading(codec: Codec, disk: Disk, primaryFails: bool, backupFails: bool): LoadResult {
    Load(codec, if primaryFails then ReadError else disk.Read(Primary), if backupFails then ReadError else disk.Read(Backup))
  }

  function LoadOf(codec: Codec, disk: Disk): LoadResult {
    LoadReading(codec, disk, false, false)
  }
}
