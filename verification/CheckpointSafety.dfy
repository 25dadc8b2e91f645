/** What a load can find after any run of the checkpoint writer. */
module CheckpointSafety {
  import opened Basics
  import opened StateDocument
  import opened DiskModel
  import opened Checkpoint

  /** `state` is attempt number `from` or a later one. */
  ghost predicate Since(s: System, from: int, state: SavedState) {
    exists j :: from <= j < |s.attempts| && 0 <= j && s.attempts[j] == state
  }

  /** `state` was attempted no earlier than the last checkpoint that reported success. */
  ghost predicate Recent(s: System, state: SavedState) {
    Since(s, s.floor, state)
  }

  ghost predicate LoadsRecent(codec: Codec, s: System, p: Option<nat>, b: Option<nat>) {
    var r := Load(codec, s.disk.At(p), s.disk.At(b));
    r.Loaded? && Recent(s, r.state)
  }

  /** A load gives a recent state, now and after a power failure. */
  ghost predicate FilesSafe(codec: Codec, s: System) {
    forall p, b :: s.disk.May(Primary, p) && s.disk.May(Backup, b) ==> LoadsRecent(codec, s, p, b)
  }

  ghost predicate ReadsRecent(codec: Codec, s: System, r: ReadResult) {
    Readable(codec, r) && Recent(s, Decode(codec, r.bytes).state)
  }

  ghost predicate BackupsSafe(codec: Codec, s: System) {
    forall b :: s.disk.May(Backup, b) ==> ReadsRecent(codec, s, s.disk.At(b))
  }

  /** Everything a state file may be after a power failure is on stable storage. */
  ghost predicate FilesStable(d: Disk) {
    forall n, e: Option<nat> :: IsStateFile(n) && d.May(n, e) && e.Some? ==> e.value < |d.inodes| && d.inodes[e.value].synced
  }

  ghost predicate Private(d: Disk, ino: nat) {
    forall n :: IsStateFile(n) ==> !d.May(n, Some(ino))
  }

  predicate BeforeRename(stage: Stage) {
    stage.Chmod? || stage.Write? || stage.Flush? || stage.Sync? || stage.Close? || stage.Rename?
  }

  /** The file being installed: private until renamed, complete before synced, synced before renamed. */
  ghost predicate TempSound(d: Disk, pc: Pc)
    requires pc.Installing?
  {
    && (BeforeRename(pc.stage) ==>
          pc.ino < |d.inodes| && Private(d, pc.ino) && d.Entry(Temp(pc.tmp)) == Some(pc.ino))
    && (pc.stage.Sync? || pc.stage.Close? || pc.stage.Rename? ==> d.inodes[pc.ino].content == pc.bytes)
    && (pc.stage.Close? || pc.stage.Rename? ==> d.inodes[pc.ino].synced)
    && (pc.stage.SyncDir? || (pc.stage.Remove? && pc.fault.None?) ==>
          && pc.ino < |d.inodes|
          && d.Entry(pc.target) == Some(pc.ino)
          && d.inodes[pc.ino] == Inode(pc.bytes, true)
          && (forall n :: IsStateFile(n) && n != pc.target ==> !d.May(n, Some(pc.ino))))
    && (pc.stage.Remove? && pc.fault.None? ==> forall n, e :: IsStateFile(n) && d.May(n, e) ==> e == d.Entry(n))
  }

  ghost predicate JobSound(codec: Codec, s: System) {
    match s.pc
    case Idle => true
    case Reading(next) => |s.attempts| > 0 && next == s.attempts[|s.attempts| - 1]
    case Installing(next, target, bytes, stage, tmp, ino, fault) =>
      && |s.attempts| > 0 && next == s.attempts[|s.attempts| - 1]
      && (fault.Some? ==> stage.LateClose? || stage.Remove?)
      && (stage.LateClose? ==> fault.Some?)
      && IsStateFile(target)
      && (target == Backup ==> ReadsRecent(codec, s, Data(bytes)))
      && (target == Primary ==> bytes == codec.Encoded(next) && (next.Acceptable() || BackupsSafe(codec, s)))
      && TempSound(s.disk, s.pc)
  }

  ghost predicate Sound(codec: Codec, s: System) {
    && s.disk.Valid()
    && s.floor < |s.attempts|
    && FilesStable(s.disk)
    && FilesSafe(codec, s)
    && JobSound(codec, s)
  }

  /** A document with no durable field may only replace an existing primary or stand beside a backup. */
  ghost predicate Storable(s: System) {
    s.pc.Reading? ==>
      s.pc.next.Acceptable() || Primary in s.disk.dir || (forall b :: s.disk.May(Backup, b) ==> b.Some?)
  }

  lemma ReadSound(codec: Codec, s: System, ok: bool)
    requires codec.Lawful() && Sound(codec, s) && s.pc.Reading? && Storable(s)
    ensures Sound(codec, AfterRead(codec, s, ok))
  {
    var s' := AfterRead(codec, s, ok);
    var p := s.disk.Entry(Primary);
    var current := s.disk.Read(Primary);
    assert s'.disk == s.disk;
    assert forall p, b :: LoadsRecent(codec, s, p, b) ==> LoadsRecent(codec, s', p, b);
    if ok && Readable(codec, current) {
      assert LoadsRecent(codec, s, p, s.disk.Entry(Backup));
    } else if ok && !s.pc.next.Acceptable() {
      forall b | s.disk.May(Backup, b)
        ensures ReadsRecent(codec, s', s.disk.At(b))
      {
        assert LoadsRecent(codec, s, p, b);
      }
    }
  }

  /** Steps that leave every possible state file as it was keep the files safe. */
  lemma SameFilesSound(codec: Codec, s: System, s': System)
    requires Sound(codec, s)
    requires s'.disk.Valid() && s'.attempts == s.attempts && s'.floor == s.floor
    requires forall n, e: Option<nat> :: IsStateFile(n) && s'.disk.May(n, e) ==> s.disk.May(n, e)
    requires forall n, e: Option<nat> :: IsStateFile(n) && s.disk.May(n, e) && e.Some? ==>
               e.value < |s'.disk.inodes| && s'.disk.inodes[e.value] == s.disk.inodes[e.value]
    ensures FilesStable(s'.disk) && FilesSafe(codec, s')
    ensures BackupsSafe(codec, s) ==> BackupsSafe(codec, s')
    ensures forall r :: ReadsRecent(codec, s, r) ==> ReadsRecent(codec, s', r)
  {
    forall p, b | s'.disk.May(Primary, p) && s'.disk.May(Backup, b)
      ensures LoadsRecent(codec, s', p, b)
    {
      assert LoadsRecent(codec, s, p, b);
    }
  }

  /** `d'` shows the state files exactly as `d` does, now and after a power failure. */
  ghost predicate SameFiles(d: Disk, d': Disk) {
    && d'.Valid() && |d.inodes| <= |d'.inodes|
    && (forall n, e: Option<nat> :: IsStateFile(n) ==> (d'.May(n, e) <==> d.May(n, e)))
    && (forall n, e: Option<nat> :: IsStateFile(n) && d.May(n, e) && e.Some? && e.value < |d.inodes| ==>
          d'.inodes[e.value] == d.inodes[e.value])
  }

  lemma CreatedSameFiles(d: Disk, id: nat)
    requires d.Valid()
    ensures SameFiles(d, d.Created(id)) && Private(d.Created(id), |d.inodes|)
  {
    var d' := d.Created(id);
    assert forall n, e :: IsStateFile(n) ==> (d'.May(n, e) <==> d.May(n, e));
  }

  lemma FilledSameFiles(d: Disk, ino: nat, content: Bytes)
    requires d.Valid() && ino < |d.inodes| && Private(d, ino)
    ensures SameFiles(d, d.Filled(ino, content)) && Private(d.Filled(ino, content), ino)
    ensures SameFiles(d, d.FileSynced(ino)) && Private(d.FileSynced(ino), ino)
  {
    assert forall n, e :: d.Filled(ino, content).May(n, e) == d.May(n, e) == d.FileSynced(ino).May(n, e);
  }

  /** The operations that touch only the temporary file. */
  lemma TempStepSameFiles(codec: Codec, s: System, outcome: Outcome, id: nat, left: Bytes)
    requires s.disk.Valid() && s.pc.Installing? && OperationAllowed(s, outcome, id)
    requires !s.pc.stage.Rename? && !s.pc.stage.SyncDir? && !s.pc.stage.Remove?
    requires BeforeRename(s.pc.stage) ==> s.pc.ino < |s.disk.inodes| && Private(s.disk, s.pc.ino)
    ensures SameFiles(s.disk, AfterOperation(codec, s, outcome, id, left).disk)
  {
    match s.pc.stage
    case Create => CreatedSameFiles(s.disk, id);
    case Write => FilledSameFiles(s.disk, s.pc.ino, left);
    case Flush => FilledSameFiles(s.disk, s.pc.ino, if outcome.Success? then s.pc.bytes else left);
    case Sync => FilledSameFiles(s.disk, s.pc.ino, []);
    case _ =>
  }

  lemma TempStepSound(codec: Codec, s: System, outcome: Outcome, id: nat, left: Bytes)
    requires codec.Lawful() && Sound(codec, s) && s.pc.Installing?
    requires !s.pc.stage.Rename? && !s.pc.stage.SyncDir? && !s.pc.stage.Remove?
    requires OperationAllowed(s, outcome, id)
    ensures Sound(codec, AfterOperation(codec, s, outcome, id, left))
  {
    var s' := AfterOperation(codec, s, outcome, id, left);
    TempStepSameFiles(codec, s, outcome, id, left);
    SameFilesSound(codec, s, s');
    if s.pc.stage.Create? && outcome.Success? {
      CreatedSameFiles(s.disk, id);
    }
  }

  /** A rename of a private, synced file adds exactly that file to what the target may be. */
  lemma RenameFiles(d: Disk, tmp: nat, target: Name, ino: nat)
    requires d.Valid() && FilesStable(d) && IsStateFile(target)
    requires d.Entry(Temp(tmp)) == Some(ino) && d.inodes[ino].synced
    ensures var d' := d.Renamed(Temp(tmp), target);
            && d'.Valid() && FilesStable(d') && d'.inodes == d.inodes && d'.Entry(target) == Some(ino)
            && (forall x :: d'.May(target, x) ==> x == Some(ino) || d.May(target, x))
            && (forall n, x :: IsStateFile(n) && n != target && d'.May(n, x) ==> d.May(n, x))
  {
  }

  lemma RenamedBackupSafe(codec: Codec, s: System, s': System, ino: nat)
    requires FilesSafe(codec, s)
    requires s'.disk.inodes == s.disk.inodes && s'.attempts == s.attempts && s'.floor == s.floor
    requires forall x :: s'.disk.May(Backup, x) ==> x == Some(ino) || s.disk.May(Backup, x)
    requires forall x :: s'.disk.May(Primary, x) ==> s.disk.May(Primary, x)
    requires ReadsRecent(codec, s, s.disk.At(Some(ino)))
    ensures FilesSafe(codec, s')
  {
    forall p, b | s'.disk.May(Primary, p) && s'.disk.May(Backup, b)
      ensures LoadsRecent(codec, s', p, b)
    {
      assert LoadsRecent(codec, s, p, if b == Some(ino) then s.disk.Entry(Backup) else b);
    }
  }

  lemma RenamedPrimarySafe(codec: Codec, s: System, s': System, ino: nat, next: SavedState)
    requires codec.Lawful() && FilesSafe(codec, s) && Recent(s, next)
    requires s'.disk.inodes == s.disk.inodes && s'.attempts == s.attempts && s'.floor == s.floor
    requires forall x :: s'.disk.May(Primary, x) ==> x == Some(ino) || s.disk.May(Primary, x)
    requires forall x :: s'.disk.May(Backup, x) ==> s.disk.May(Backup, x)
    requires s.disk.At(Some(ino)) == Data(codec.Encoded(next))
    requires next.Acceptable() || BackupsSafe(codec, s)
    ensures FilesSafe(codec, s')
  {
    EncodedDecodes(codec, next);
    forall p, b | s'.disk.May(Primary, p) && s'.disk.May(Backup, b)
      ensures LoadsRecent(codec, s', p, b)
    {
      if p != Some(ino) {
        assert LoadsRecent(codec, s, p, b);
      }
    }
  }

  lemma RenameSound(codec: Codec, s: System, outcome: Outcome)
    requires codec.Lawful() && Sound(codec, s) && s.pc.Installing? && s.pc.stage.Rename?
    requires OperationAllowed(s, outcome, 0)
    ensures Sound(codec, AfterOperation(codec, s, outcome, 0, []))
  {
    var s' := AfterOperation(codec, s, outcome, 0, []);
    if outcome.Failure? {
      SameFilesSound(codec, s, s');
    } else {
      RenameFiles(s.disk, s.pc.tmp, s.pc.target, s.pc.ino);
      if s.pc.target == Backup {
        RenamedBackupSafe(codec, s, s', s.pc.ino);
      } else {
        assert s.attempts[|s.attempts| - 1] == s.pc.next;
        RenamedPrimarySafe(codec, s, s', s.pc.ino, s.pc.next);
      }
    }
  }

  lemma SyncDirSound(codec: Codec, s: System, outcome: Outcome)
    requires codec.Lawful() && Sound(codec, s) && s.pc.Installing? && s.pc.stage.SyncDir?
    ensures Sound(codec, AfterOperation(codec, s, outcome, 0, []))
  {
    SameFilesSound(codec, s, AfterOperation(codec, s, outcome, 0, []));
  }

  lemma RemoveSound(codec: Codec, s: System, outcome: Outcome)
    requires codec.Lawful() && Sound(codec, s) && s.pc.Installing? && s.pc.stage.Remove?
    ensures Sound(codec, AfterRemove(codec, s, outcome))
  {
    var s' := AfterRemove(codec, s, outcome);
    SameFilesSound(codec, s, s'.(floor := s.floor));
    if s'.floor != s.floor {
      EncodedDecodes(codec, s.pc.next);
      assert s'.attempts[s'.floor] == s.pc.next;
    }
  }

  lemma PowerFailureSound(codec: Codec, s: System, after: Disk)
    requires codec.Lawful() && Sound(codec, s) && CrashTo(s.disk, after)
    ensures Sound(codec, s.(disk := after, pc := Idle))
  {
    var s' := s.(disk := after, pc := Idle);
    forall n | n in after.dir
      ensures after.dir[n] < |after.inodes|
    {
      assert s.disk.May(n, after.Entry(n));
    }
    forall p, b | s'.disk.May(Primary, p) && s'.disk.May(Backup, b)
      ensures LoadsRecent(codec, s', p, b)
    {
      assert LoadsRecent(codec, s, p, b);
      assert s'.disk.At(p) == s.disk.At(p) && s'.disk.At(b) == s.disk.At(b);
    }
  }

  lemma BeginSound(codec: Codec, s: System, next: SavedState)
    requires Sound(codec, s) && s.pc.Idle?
    ensures Sound(codec, s.(pc := Reading(next), attempts := s.attempts + [next]))
  {
    var s' := s.(pc := Reading(next), attempts := s.attempts + [next]);
    assert forall x :: Recent(s, x) ==> Recent(s', x) by {
      forall x | Recent(s, x) ensures Recent(s', x) {
        var j :| s.floor <= j < |s.attempts| && s.attempts[j] == x;
        assert s'.attempts[j] == x;
      }
    }
    forall p, b | s'.disk.May(Primary, p) && s'.disk.May(Backup, b)
      ensures LoadsRecent(codec, s', p, b)
    {
      assert LoadsRecent(codec, s, p, b);
    }
  }

  lemma StepSound(codec: Codec, s: System, e: Event, s': System)
    requires codec.Lawful() && Sound(codec, s) && Step(codec, s, e, s')
    requires !e.PrimaryChange?
    requires e.ReadCurrent? ==> Storable(s)
    ensures Sound(codec, s')
  {
    match e
    case Begin(next) => BeginSound(codec, s, next);
    case ReadCurrent(ok) => ReadSound(codec, s, ok);
    case Operation(outcome, id, left) =>
      match s.pc.stage {
        case Rename => RenameSound(codec, s, outcome);
        case SyncDir => SyncDirSound(codec, s, outcome);
        case Remove => RemoveSound(codec, s, outcome);
        case _ => TempStepSound(codec, s, outcome, id, left);
      }
    case Kill => SameFilesSound(codec, s, s');
    case PowerFailure(after) => PowerFailureSound(codec, s, after);
  }

  /** The states a load can give now or after a power failure are among `known`. */
  ghost predicate Starts(codec: Codec, s: System, known: seq<SavedState>) {
    && s.pc.Idle? && s.floor == 0 && s.attempts == known && s.copied == [] && known != []
    && s.disk.Valid() && FilesStable(s.disk) && FilesSafe(codec, s)
  }

  /** A run in which nothing outside the program changes the primary. */
  ghost predicate UndisturbedRun(codec: Codec, states: seq<System>, events: seq<Event>) {
    && IsRun(codec, states, events)
    && (forall i :: 0 <= i < |events| ==> !events[i].PrimaryChange?)
    && (forall i :: 0 <= i < |events| && events[i].ReadCurrent? ==> Storable(states[i]))
  }

  lemma {:induction false} RunSound(codec: Codec, states: seq<System>, events: seq<Event>, k: nat)
    requires codec.Lawful() && UndisturbedRun(codec, states, events) && k < |states|
    requires Sound(codec, states[0])
    ensures Sound(codec, states[k])
  {
    if k > 0 {
      RunSound(codec, states, events, k - 1);
      StepSound(codec, states[k - 1], events[k - 1], states[k]);
    }
  }

  /** A load whose reads may fail gives attempt number `from` or a later one. */
  ghost predicate LoadsSince(codec: Codec, s: System, from: int, primaryFails: bool, backupFails: bool) {
    var r := LoadReading(codec, s.disk, primaryFails, backupFails);
    r.Loaded? && Since(s, from, r.state)
  }

  /**
   The failing reads do no harm: a backup that fails was not needed, or stands in for a primary
   that fails with a state as new.
   */
  ghost predicate Harmless(codec: Codec, s: System, from: int, primaryFails: bool, backupFails: bool) {
    var backup := s.disk.Read(Backup);
    if primaryFails then !backupFails && Readable(codec, backup) && Since(s, from, Decode(codec, backup.bytes).state)
    else !backupFails || Readable(codec, s.disk.Read(Primary))
  }

  /** Loads with failing reads are as recent as the others exactly when the failures are harmless. */
  lemma LoadsWithFailures(codec: Codec, s: System, from: int)
    requires LoadsSince(codec, s, from, false, false)
    ensures forall pf, bf :: LoadsSince(codec, s, from, pf, bf) <==> Harmless(codec, s, from, pf, bf)
  {
  }

  /**
   Whole-run durability: at every moment of every run a load succeeds and gives a state that was
   attempted no earlier than the last checkpoint that reported success - also when its own reads
   fail, exactly as long as the failures are harmless.
   */
  lemma EveryLoadIsRecent(codec: Codec, states: seq<System>, events: seq<Event>, known: seq<SavedState>, k: nat)
    requires codec.Lawful() && UndisturbedRun(codec, states, events) && k < |states|
    requires Starts(codec, states[0], known)
    ensures var r := LoadOf(codec, states[k].disk);
            r.Loaded? && Recent(states[k], r.state)
    ensures forall pf, bf ::
              LoadsSince(codec, states[k], states[k].floor, pf, bf) <==> Harmless(codec, states[k], states[k].floor, pf, bf)
  {
    RunSound(codec, states, events, k);
    var s := states[k];
    assert LoadsRecent(codec, s, s.disk.Entry(Primary), s.disk.Entry(Backup));
    LoadsWithFailures(codec, s, s.floor);
  }

  /** The step from `s` to `s'` is a checkpoint of `next` reporting success. */
  ghost predicate Acknowledges(codec: Codec, s: System, e: Event, s': System, next: SavedState) {
    && Step(codec, s, e, s')
    && e.Operation? && s.pc.next == next && s'.pc.Idle? && s'.result == Some(None)
  }

  lemma {:induction false} HistoryGrows(codec: Codec, states: seq<System>, events: seq<Event>, i: nat, k: nat)
    requires IsRun(codec, states, events) && i <= k < |states|
    requires forall m :: 0 <= m < |states| ==> states[m].floor < |states[m].attempts|
    ensures states[i].floor <= states[k].floor && states[i].attempts <= states[k].attempts
    decreases k
  {
    if i < k {
      HistoryGrows(codec, states, events, i, k - 1);
      assert Step(codec, states[k - 1], events[k - 1], states[k]);
    }
  }

  /** A success is reported by the removal that ends the installation of the primary. */
  lemma AcknowledgedIs(codec: Codec, s: System, e: Event, s': System, next: SavedState)
    requires Sound(codec, s) && Acknowledges(codec, s, e, s', next)
    ensures s.pc.target == Primary && s.pc.bytes == codec.Encoded(next) && s'.attempts == s.attempts
    ensures |s.attempts| > 0 && s.attempts[|s.attempts| - 1] == next
    ensures next.Acceptable() ==> s'.floor == |s.attempts| - 1
    ensures s'.disk.Read(Primary) == Data(codec.Encoded(next))
  {
    assert s.pc.stage.Remove? && s.pc.fault.None? && e.outcome.Success?;
  }

  /**
   Once a checkpoint of `next` reported success, every later load gives `next` or a state that a
   later checkpoint tried to save, whatever fails or crashes in between; and a load whose own reads
   fail does so exactly when the failures are harmless.
   */
  lemma AcknowledgedStateSurvives(
      codec: Codec, states: seq<System>, events: seq<Event>, known: seq<SavedState>,
      next: SavedState, i: nat, k: nat)
    requires codec.Lawful() && UndisturbedRun(codec, states, events) && i < k < |states|
    requires Starts(codec, states[0], known)
    requires Acknowledges(codec, states[i], events[i], states[i + 1], next) && next.Acceptable()
    ensures var last := |states[i].attempts| - 1;
            && 0 <= last < |states[k].attempts| && states[k].attempts[last] == next
            && LoadsSince(codec, states[k], last, false, false)
            && (forall pf, bf :: LoadsSince(codec, states[k], last, pf, bf) <==> Harmless(codec, states[k], last, pf, bf))
  {
    forall m | 0 <= m < |states|
      ensures states[m].floor < |states[m].attempts|
    {
      RunSound(codec, states, events, m);
    }
    RunSound(codec, states, events, i);
    AcknowledgedIs(codec, states[i], events[i], states[i + 1], next);
    HistoryGrows(codec, states, events, i + 1, k);
    EveryLoadIsRecent(codec, states, events, known, k);
    LoadsWithFailures(codec, states[k], |states[i].attempts| - 1);
  }

  /** Removing a temporary file changes nothing about the state files. */
  lemma RemovedTemp(d: Disk, tmp: nat)
    ensures forall n :: IsStateFile(n) ==> d.Removed(Temp(tmp)).Entry(n) == d.Entry(n)
    ensures forall n, e :: IsStateFile(n) ==> (d.Removed(Temp(tmp)).May(n, e) <==> d.May(n, e))
  {
  }

  lemma SuccessSettles(codec: Codec, s: System, e: Event, s': System, next: SavedState)
    requires Sound(codec, s) && Sound(codec, s') && Acknowledges(codec, s, e, s', next)
    ensures s'.disk.Settled() && s'.disk.Entry(Primary) != s'.disk.Entry(Backup)
  {
    AcknowledgedIs(codec, s, e, s', next);
    assert s.pc.stage.Remove? && s.pc.fault.None? && s'.disk == s.disk.Removed(Temp(s.pc.tmp));
    RemovedTemp(s.disk, s.pc.tmp);
    assert s.disk.May(Backup, s.disk.Entry(Backup));
    forall n | IsStateFile(n) && n in s'.disk.dir
      ensures s'.disk.inodes[s'.disk.dir[n]].synced
    {
      assert s'.disk.May(n, Some(s'.disk.dir[n]));
    }
  }

  /** A checkpoint that reported success leaves settled files that share nothing. */
  lemma AcknowledgedSettles(
      codec: Codec, states: seq<System>, events: seq<Event>, known: seq<SavedState>, next: SavedState, i: nat)
    requires codec.Lawful() && UndisturbedRun(codec, states, events) && i < |events|
    requires Starts(codec, states[0], known)
    requires Acknowledges(codec, states[i], events[i], states[i + 1], next)
    ensures states[i + 1].disk.Settled() && states[i + 1].disk.Entry(Primary) != states[i + 1].disk.Entry(Backup)
  {
    RunSound(codec, states, events, i);
    RunSound(codec, states, events, i + 1);
    SuccessSettles(codec, states[i], events[i], states[i + 1], next);
  }

  /** A power failure leaves settled files settled, with the same contents. */
  lemma SettledSurvives(d: Disk, after: Disk)
    requires d.Settled() && CrashTo(d, after)
    ensures after.Settled() && after.Read(Primary) == d.Read(Primary) && after.Read(Backup) == d.Read(Backup)
  {
    assert d.May(Primary, after.Entry(Primary)) && d.May(Backup, after.Entry(Backup));
    forall n | n in after.dir
      ensures after.dir[n] < |after.inodes|
    {
      assert d.May(n, after.Entry(n));
    }
  }

  /** Until the next checkpoint begins, kills and power failures change nothing about settled files. */
  lemma {:induction false} SettledRests(codec: Codec, states: seq<System>, events: seq<Event>, i: nat, k: nat)
    requires UndisturbedRun(codec, states, events) && i <= k < |states|
    requires states[i].pc.Idle? && states[i].disk.Settled()
    requires forall m :: i <= m < k ==> !events[m].Begin?
    ensures states[k].pc.Idle? && states[k].disk.Settled()
    ensures states[k].disk.Read(Primary) == states[i].disk.Read(Primary)
    ensures states[k].disk.Read(Backup) == states[i].disk.Read(Backup)
    ensures states[k].attempts == states[i].attempts && states[k].floor == states[i].floor
    decreases k
  {
    if i < k {
      SettledRests(codec, states, events, i, k - 1);
      assert Step(codec, states[k - 1], events[k - 1], states[k]);
      if events[k - 1].PowerFailure? {
        SettledSurvives(states[k - 1].disk, states[k].disk);
      }
    }
  }

  /**
   Until the next checkpoint begins, a checkpoint that reported success is what a load gives from
   the primary exactly when it holds a durable field and reading the primary does not fail. When
   that fails the load is still good exactly when the backup holds the same state.
   */
  lemma AcknowledgedLoadsExactly(
      codec: Codec, states: seq<System>, events: seq<Event>, known: seq<SavedState>, next: SavedState, i: nat, k: nat,
      primaryFails: bool, backupFails: bool)
    requires codec.Lawful() && UndisturbedRun(codec, states, events) && i < k < |states|
    requires Starts(codec, states[0], known)
    requires Acknowledges(codec, states[i], events[i], states[i + 1], next)
    requires forall m :: i < m < k ==> !events[m].Begin?
    ensures var r := LoadReading(codec, states[k].disk, primaryFails, backupFails);
            var backup := states[k].disk.Read(Backup);
            && (r == Loaded(next, FromPrimary, CURRENT_VERSION, false) <==> next.Acceptable() && !primaryFails)
            && (next.Acceptable() && primaryFails ==>
                (LoadsSince(codec, states[k], states[k].floor, primaryFails, backupFails) <==>
                 !backupFails && Readable(codec, backup) && Decode(codec, backup.bytes).state == next))
  {
    RunSound(codec, states, events, i);
    AcknowledgedIs(codec, states[i], events[i], states[i + 1], next);
    AcknowledgedSettles(codec, states, events, known, next, i);
    SettledRests(codec, states, events, i + 1, k);
    EncodedDecodes(codec, next);
    EveryLoadIsRecent(codec, states, events, known, k);
  }

  ghost predicate Gives(codec: Codec, d: Disk, state: SavedState) {
    var r := LoadOf(codec, d);
    r.Loaded? && r.state == state
  }

  /** Every load of `d`, now or after a power failure, gives `prev` or `next`. */
  ghost predicate LoadsOnly(codec: Codec, d: Disk, prev: SavedState, next: SavedState) {
    forall p, b :: d.May(Primary, p) && d.May(Backup, b) ==>
      var r := Load(codec, d.At(p), d.At(b));
      r.Loaded? && (r.state == prev || r.state == next)
  }

  /** The writer at rest on a disk from which a load may give one of the states `known`. */
  function AtRest(d: Disk, known: seq<SavedState>): System {
    System(d, Idle, known, 0, [], None)
  }

  /** A run from `s` that only ever tries to save `next`. */
  ghost predicate CheckpointRun(codec: Codec, s: System, next: SavedState, states: seq<System>, events: seq<Event>) {
    && UndisturbedRun(codec, states, events)
    && states[0] == s
    && (forall i :: 0 <= i < |events| && events[i].Begin? ==> events[i].next == next)
  }

  /** Every moment of every such run loads `prev` or `next`. */
  ghost predicate OldOrNew(codec: Codec, d: Disk, prev: SavedState, next: SavedState) {
    forall states: seq<System>, events: seq<Event>, k: nat ::
      CheckpointRun(codec, AtRest(d, [prev, next]), next, states, events) && k < |states| ==>
      var r := LoadOf(codec, states[k].disk);
      r.Loaded? && (r.state == prev || r.state == next)
  }

  lemma {:induction false} OnlyKnownAttempts(
      codec: Codec, s: System, next: SavedState, states: seq<System>, events: seq<Event>, k: nat)
    requires CheckpointRun(codec, s, next, states, events) && k < |states|
    ensures forall j :: 0 <= j < |states[k].attempts| ==> states[k].attempts[j] in s.attempts + [next]
  {
    if k > 0 {
      OnlyKnownAttempts(codec, s, next, states, events, k - 1);
      assert Step(codec, states[k - 1], events[k - 1], states[k]);
    }
  }

  /** Any pair of entries the two files may show is what some power failure leaves. */
  lemma SomeCrash(d: Disk, p: Option<nat>, b: Option<nat>) returns (after: Disk)
    requires d.Valid() && FilesStable(d) && d.May(Primary, p) && d.May(Backup, b)
    ensures CrashTo(d, after) && after.Entry(Primary) == p && after.Entry(Backup) == b
    ensures after.At(p) == d.At(p) && after.At(b) == d.At(b)
  {
    var kept := d.dir - {Primary, Backup};
    var withP := if p.Some? then kept[Primary := p.value] else kept;
    var dir := if b.Some? then withP[Backup := b.value] else withP;
    after := Disk(seq(|d.inodes|, i requires 0 <= i < |d.inodes| => Inode(d.inodes[i].content, true)), dir, {});
  }

  /**
   Crash and fault safety: a checkpoint of `next` over files that load `prev` leaves, after any
   failure or crash at any step, files that load `prev` or `next` - exactly when no entry still
   waiting for a directory sync could bring back anything else.
   */
  lemma CrashSafeExactly(codec: Codec, d: Disk, prev: SavedState, next: SavedState)
    requires codec.Lawful() && d.Valid() && FilesStable(d)
    ensures OldOrNew(codec, d, prev, next) <==> LoadsOnly(codec, d, prev, next)
  {
    var s := AtRest(d, [prev, next]);
    if LoadsOnly(codec, d, prev, next) {
      forall p, b | d.May(Primary, p) && d.May(Backup, b)
        ensures LoadsRecent(codec, s, p, b)
      {
        assert s.attempts[0] == prev && s.attempts[1] == next;
      }
      forall states: seq<System>, events: seq<Event>, k: nat | CheckpointRun(codec, s, next, states, events) && k < |states|
        ensures var r := LoadOf(codec, states[k].disk);
                r.Loaded? && (r.state == prev || r.state == next)
      {
        EveryLoadIsRecent(codec, states, events, [prev, next], k);
        OnlyKnownAttempts(codec, s, next, states, events, k);
      }
    }
    if OldOrNew(codec, d, prev, next) {
      forall p, b | d.May(Primary, p) && d.May(Backup, b)
        ensures var r := Load(codec, d.At(p), d.At(b));
                r.Loaded? && (r.state == prev || r.state == next)
      {
        var after := SomeCrash(d, p, b);
        var states := [s, s.(disk := after)];
        assert CheckpointRun(codec, s, next, states, [PowerFailure(after)]);
        assert |states| > 1 && LoadOf(codec, states[1].disk) == Load(codec, d.At(p), d.At(b));
      }
    }
  }

  /** On a settled disk the condition is just that the files load `prev`. */
  lemma SettledIsCrashSafe(codec: Codec, d: Disk, prev: SavedState, next: SavedState)
    requires codec.Lawful() && d.Settled() && Gives(codec, d, prev)
    ensures OldOrNew(codec, d, prev, next)
  {
    CrashSafeExactly(codec, d, prev, next);
  }

  /** Runs that save only states with a durable field meet the condition on stored documents. */
  lemma {:induction false} AcceptableIsStorable(codec: Codec, states: seq<System>, events: seq<Event>, k: nat)
    requires IsRun(codec, states, events) && states[0].pc.Idle? && k < |states|
    requires forall i :: 0 <= i < |events| && events[i].Begin? ==> events[i].next.Acceptable()
    ensures states[k].pc.Reading? ==> states[k].pc.next.Acceptable()
  {
    if k > 0 {
      AcceptableIsStorable(codec, states, events, k - 1);
      assert Step(codec, states[k - 1], events[k - 1], states[k]);
    }
  }
}
