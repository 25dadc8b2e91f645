/** What the rollback copy keeps when the primary is also damaged from outside. */
module BackupSafety {
  import opened Basics
  import opened StateDocument
  import opened DiskModel
  import opened Checkpoint
  import opened CheckpointSafety

  /** Bytes the rollback copy may hold: its first content, or a decodable primary that was read. */
  ghost predicate Legitimate(codec: Codec, s: System, first: Bytes, bytes: Bytes) {
    Decodable(codec, bytes) && (bytes == first || bytes in s.copied)
  }

  ghost predicate GoodCopy(codec: Codec, s: System, first: Bytes, e: Option<nat>) {
    && e.Some? && e.value < |s.disk.inodes|
    && s.disk.inodes[e.value].synced
    && Legitimate(codec, s, first, s.disk.inodes[e.value].content)
    && !s.disk.May(Primary, e)
  }

  ghost predicate BackupJobSound(codec: Codec, s: System) {
    s.pc.Installing? ==>
      && (s.pc.target == Primary || (s.pc.target == Backup && s.pc.bytes in s.copied && Decodable(codec, s.pc.bytes)))
      && (BeforeRename(s.pc.stage) ==>
            && s.pc.ino < |s.disk.inodes| && Private(s.disk, s.pc.ino)
            && s.disk.Entry(Temp(s.pc.tmp)) == Some(s.pc.ino))
      && (s.pc.stage.Sync? || s.pc.stage.Close? || s.pc.stage.Rename? ==>
            s.disk.inodes[s.pc.ino].content == s.pc.bytes)
      && (s.pc.stage.Close? || s.pc.stage.Rename? ==> s.disk.inodes[s.pc.ino].synced)
  }

  /** Whatever the rollback copy may be after a power failure is good, and shared with nothing. */
  ghost predicate BackupSound(codec: Codec, s: System, first: Bytes) {
    && s.disk.Valid()
    && (forall b :: s.disk.May(Backup, b) ==> GoodCopy(codec, s, first, b))
    && BackupJobSound(codec, s)
  }

  lemma SameCopies(codec: Codec, s: System, s': System, first: Bytes)
    requires BackupSound(codec, s, first)
    requires s'.copied == s.copied
    requires forall n, e: Option<nat> :: IsStateFile(n) && s'.disk.May(n, e) ==> s.disk.May(n, e)
    requires forall e: Option<nat> :: s.disk.May(Backup, e) && e.Some? && e.value < |s.disk.inodes| ==>
               e.value < |s'.disk.inodes| && s'.disk.inodes[e.value] == s.disk.inodes[e.value]
    ensures forall b :: s'.disk.May(Backup, b) ==> GoodCopy(codec, s', first, b)
  {
    forall b | s'.disk.May(Backup, b)
      ensures GoodCopy(codec, s', first, b)
    {
      assert GoodCopy(codec, s, first, b);
    }
  }

  lemma TempStepKeepsBackup(codec: Codec, s: System, first: Bytes, outcome: Outcome, id: nat, left: Bytes)
    requires BackupSound(codec, s, first) && s.pc.Installing?
    requires !s.pc.stage.Rename? && !s.pc.stage.SyncDir? && !s.pc.stage.Remove?
    requires OperationAllowed(s, outcome, id)
    ensures BackupSound(codec, AfterOperation(codec, s, outcome, id, left), first)
  {
    var s' := AfterOperation(codec, s, outcome, id, left);
    TempStepSameFiles(codec, s, outcome, id, left);
    SameCopies(codec, s, s', first);
    if s.pc.stage.Create? && outcome.Success? {
      CreatedSameFiles(s.disk, id);
    }
  }

  lemma EndStepKeepsBackup(codec: Codec, s: System, first: Bytes, outcome: Outcome)
    requires BackupSound(codec, s, first) && s.pc.Installing? && (s.pc.stage.SyncDir? || s.pc.stage.Remove?)
    ensures BackupSound(codec, AfterOperation(codec, s, outcome, 0, []), first)
  {
    SameCopies(codec, s, AfterOperation(codec, s, outcome, 0, []), first);
  }

  lemma RenameKeepsBackup(codec: Codec, s: System, first: Bytes, outcome: Outcome, id: nat)
    requires BackupSound(codec, s, first) && s.pc.Installing? && s.pc.stage.Rename?
    requires OperationAllowed(s, outcome, id)
    ensures BackupSound(codec, AfterOperation(codec, s, outcome, id, []), first)
  {
    var s' := AfterOperation(codec, s, outcome, id, []);
    assert forall n, x :: IsStateFile(n) && s'.disk.May(n, x) ==>
      s.disk.May(n, x) || (n == s.pc.target && x == Some(s.pc.ino));
    forall b | s'.disk.May(Backup, b)
      ensures GoodCopy(codec, s', first, b)
    {
      if s.disk.May(Backup, b) {
        assert GoodCopy(codec, s, first, b);
      }
    }
  }

  lemma StepKeepsBackup(codec: Codec, s: System, e: Event, s': System, first: Bytes)
    requires BackupSound(codec, s, first) && Step(codec, s, e, s')
    ensures BackupSound(codec, s', first)
  {
    match e
    case Operation(outcome, id, left) =>
      if s.pc.stage.Rename? {
        RenameKeepsBackup(codec, s, first, outcome, id);
      } else if s.pc.stage.SyncDir? || s.pc.stage.Remove? {
        EndStepKeepsBackup(codec, s, first, outcome);
      } else {
        TempStepKeepsBackup(codec, s, first, outcome, id, left);
      }
    case PowerFailure(after) =>
      forall n | n in after.dir
        ensures after.dir[n] < |after.inodes|
      {
        assert s.disk.May(n, after.Entry(n));
      }
      assert s.disk.May(Primary, after.Entry(Primary)) && s.disk.May(Backup, after.Entry(Backup));
      assert GoodCopy(codec, s, first, after.Entry(Backup));
    case _ =>
      forall b | s'.disk.May(Backup, b)
        ensures GoodCopy(codec, s', first, b)
      {
        assert s.disk.May(Backup, b);
        assert GoodCopy(codec, s, first, b);
      }
  }

  /**
   A decodable rollback copy stays decodable through every run, even when the primary is
   damaged from outside between any two steps, and only ever holds its first content or the
   exact bytes of a decodable primary that a checkpoint read.
   */
  lemma {:induction false} BackupStaysDecodable(
      codec: Codec, states: seq<System>, events: seq<Event>, first: Bytes, k: nat)
    requires IsRun(codec, states, events) && k < |states|
    requires states[0].pc.Idle?
    requires states[0].disk.Settled() && states[0].disk.Read(Backup) == Data(first) && Decodable(codec, first)
    requires states[0].disk.Entry(Primary) != states[0].disk.Entry(Backup)
    ensures BackupSound(codec, states[k], first)
    ensures var r := states[k].disk.Read(Backup);
            r.Data? && Legitimate(codec, states[k], first, r.bytes)
  {
    if k > 0 {
      BackupStaysDecodable(codec, states, events, first, k - 1);
      StepKeepsBackup(codec, states[k - 1], events[k - 1], states[k], first);
    }
    assert GoodCopy(codec, states[k], first, states[k].disk.Entry(Backup));
  }

  /**
   So the rollback copy beside a checkpoint that reported success, if decodable, stays decodable in
   every run that goes on from there, whatever then happens to the primary.
   */
  lemma BackupOfCheckpointStays(
      codec: Codec, states: seq<System>, events: seq<Event>, known: seq<SavedState>, next: SavedState, i: nat,
      later: seq<System>, steps: seq<Event>, k: nat)
    requires codec.Lawful() && UndisturbedRun(codec, states, events) && i < |events|
    requires Starts(codec, states[0], known)
    requires Acknowledges(codec, states[i], events[i], states[i + 1], next)
    requires IsRun(codec, later, steps) && later[0] == states[i + 1] && k < |later|
    requires Readable(codec, later[0].disk.Read(Backup))
    ensures Readable(codec, later[k].disk.Read(Backup))
  {
    AcknowledgedSettles(codec, states, events, known, next, i);
    BackupStaysDecodable(codec, later, steps, later[0].disk.Read(Backup).bytes, k);
  }

  /** Every entry of `copied` was the whole visible primary, and decodable, when a checkpoint read it. */
  lemma {:induction false} CopiedWerePrimaries(codec: Codec, states: seq<System>, events: seq<Event>, k: nat, c: nat)
    requires IsRun(codec, states, events) && k < |states|
    requires states[0].copied == [] && c < |states[k].copied|
    ensures exists i :: && 0 <= i < k && events[i] == ReadCurrent(true) && states[i].pc.Reading?
                        && states[i].disk.Read(Primary) == Data(states[k].copied[c])
                        && Decodable(codec, states[k].copied[c])
  {
    assert Step(codec, states[k - 1], events[k - 1], states[k]);
    if c < |states[k - 1].copied| {
      CopiedWerePrimaries(codec, states, events, k - 1, c);
    }
  }
}
