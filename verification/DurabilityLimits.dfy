/**
 Runs of the checkpoint writer that show where durability ends: a directory sync that failed, and
 a primary that cannot be read back.
 */
module DurabilityLimits {
  import opened Basics
  import opened StateDocument
  import opened DiskModel
  import opened Checkpoint
  import opened CheckpointSafety

  lemma Extended(codec: Codec, states: seq<System>, events: seq<Event>, e: Event, s: System)
    returns (states': seq<System>, events': seq<Event>)
    requires UndisturbedRun(codec, states, events) && Step(codec, states[|events|], e, s)
    requires !e.PrimaryChange? && (e.ReadCurrent? ==> Storable(states[|events|]))
    ensures UndisturbedRun(codec, states', events')
    ensures states' == states + [s] && events' == events + [e]
  {
    states', events' := states + [s], events + [e];
  }

  /** One more operation of the installation under way. */
  lemma Operated(codec: Codec, states: seq<System>, events: seq<Event>, outcome: Outcome, id: nat)
    returns (states': seq<System>, events': seq<Event>)
    requires UndisturbedRun(codec, states, events)
    requires states[|events|].pc.Installing? && OperationAllowed(states[|events|], outcome, id)
    ensures UndisturbedRun(codec, states', events')
    ensures states' == states + [AfterOperation(codec, states[|events|], outcome, id, [])]
    ensures events' == events + [Operation(outcome, id, [])]
  {
    var s := AfterOperation(codec, states[|events|], outcome, id, []);
    states', events' := Extended(codec, states, events, Operation(outcome, id, []), s);
  }

  /** The disk once `bytes` have been renamed over `target` through the new temporary file `id`. */
  function Placed(d: Disk, id: nat, target: Name, bytes: Bytes): Disk {
    var n := |d.inodes|;
    Disk(d.inodes + [Inode(bytes, true)], d.dir[target := n],
         d.stale + {(Temp(id), None), (Temp(id), Some(n)), (target, d.Entry(target))})
  }

  /** The operations of an installation, all successful, up to the directory sync. */
  lemma InstalledToSync(codec: Codec, states: seq<System>, events: seq<Event>, id: nat)
    returns (states': seq<System>, events': seq<Event>)
    requires UndisturbedRun(codec, states, events) && states[|events|].pc.Installing?
    requires var s := states[|events|];
             && s.pc == StartInstall(s.pc.next, s.pc.target, s.pc.bytes) && IsStateFile(s.pc.target)
             && s.disk.Valid() && Temp(id) !in s.disk.dir
    ensures UndisturbedRun(codec, states', events') && states <= states' && events <= events'
    ensures var s, s' := states[|events|], states'[|events'|];
            s' == s.(disk := Placed(s.disk, id, s.pc.target, s.pc.bytes),
                     pc := s.pc.(stage := SyncDir, tmp := id, ino := |s.disk.inodes|))
  {
    var s := states[|events|];
    states', events' := Operated(codec, states, events, Success, id);
    states', events' := Operated(codec, states', events', Success, id);
    states', events' := Operated(codec, states', events', Success, id);
    states', events' := Operated(codec, states', events', Success, id);
    states', events' := Operated(codec, states', events', Success, id);
    states', events' := Operated(codec, states', events', Success, id);
    states', events' := Operated(codec, states', events', Success, id);
    var d, n := s.disk, |s.disk.inodes|;
    assert (d.dir[Temp(id) := n] - {Temp(id)})[s.pc.target := n] == d.dir[s.pc.target := n];
    assert states'[|events'|].disk == Placed(d, id, s.pc.target, s.pc.bytes);
  }

  /** Files of which the primary alone exists, holds `state` and is on stable storage. */
  function OnlyPrimary(codec: Codec, state: SavedState): Disk {
    Disk([Inode(codec.Encoded(state), true)], map[Primary := 0], {})
  }

  /** A checkpoint of `next` over a primary holding `older`, up to copying that to the backup. */
  lemma BackupInstalled(codec: Codec, older: SavedState, next: SavedState)
    returns (states: seq<System>, events: seq<Event>)
    requires codec.Lawful() && older.Acceptable()
    ensures UndisturbedRun(codec, states, events) && states[0] == AtRest(OnlyPrimary(codec, older), [older])
    ensures var s := states[|events|];
            && s.pc == StartInstall(next, Primary, codec.Encoded(next))
            && s.attempts == [older, next] && s.floor == 0 && s.result == None
            && s.disk.inodes == [Inode(codec.Encoded(older), true), Inode(codec.Encoded(older), true)]
            && s.disk.dir == map[Primary := 0, Backup := 1] && s.disk.stale == {(Temp(0), None)}
  {
    EncodedDecodes(codec, older);
    var s := AtRest(OnlyPrimary(codec, older), [older]);
    states, events := Extended(codec, [s], [], Begin(next), s.(pc := Reading(next), attempts := [older, next]));
    states, events := Extended(codec, states, events, ReadCurrent(true), AfterRead(codec, states[1], true));
    states, events := InstalledToSync(codec, states, events, 0);
    states, events := Operated(codec, states, events, Success, 0);
    states, events := Operated(codec, states, events, Success, 0);
  }

  /** That checkpoint up to the directory sync that should make the new primary durable. */
  lemma PrimaryRenamed(codec: Codec, older: SavedState, next: SavedState)
    returns (states: seq<System>, events: seq<Event>)
    requires codec.Lawful() && older.Acceptable()
    ensures UndisturbedRun(codec, states, events) && states[0] == AtRest(OnlyPrimary(codec, older), [older])
    ensures var s := states[|events|];
            && s.pc == Installing(next, Primary, codec.Encoded(next), SyncDir, 0, 2, None)
            && s.attempts == [older, next] && s.floor == 0 && s.result == None
            && s.disk.inodes == [Inode(codec.Encoded(older), true), Inode(codec.Encoded(older), true),
                                 Inode(codec.Encoded(next), true)]
            && s.disk.dir == map[Primary := 2, Backup := 1] && (Primary, Some(0)) in s.disk.stale
  {
    states, events := BackupInstalled(codec, older, next);
    states, events := InstalledToSync(codec, states, events, 0);
  }

  /** Before its only checkpoint the writer rests on files from which every load gives `state`. */
  lemma OnlyPrimaryStarts(codec: Codec, state: SavedState)
    requires codec.Lawful() && state.Acceptable()
    ensures OnlyPrimary(codec, state).Settled() && Starts(codec, AtRest(OnlyPrimary(codec, state), [state]), [state])
  {
    EncodedDecodes(codec, state);
    var s := AtRest(OnlyPrimary(codec, state), [state]);
    assert s.attempts[0] == state;
  }

  /** The checkpoint of `shown` whose last directory sync fails. */
  lemma SyncDirFailed(codec: Codec, older: SavedState, shown: SavedState)
    returns (states: seq<System>, events: seq<Event>)
    requires codec.Lawful() && older.Acceptable() && shown.Acceptable()
    ensures UndisturbedRun(codec, states, events)
    ensures Starts(codec, states[0], [older]) && states[0].disk.Settled()
    ensures var s := states[|events|];
            && s.pc.Idle? && s.result == Some(Some(InstallFailed(Primary, SyncDir)))
            && Gives(codec, s.disk, shown) && s.disk.Valid() && FilesStable(s.disk)
            && s.disk.May(Primary, Some(0)) && s.disk.May(Backup, Some(1))
            && s.disk.At(Some(0)) == s.disk.At(Some(1)) == Data(codec.Encoded(older))
  {
    OnlyPrimaryStarts(codec, older);
    EncodedDecodes(codec, shown);
    states, events := PrimaryRenamed(codec, older, shown);
    states, events := Operated(codec, states, events, Failure, 0);
    states, events := Operated(codec, states, events, Success, 0);
    RunSound(codec, states, events, |events|);
  }

  /**
   A power failure can undo a checkpoint whose directory sync failed. From settled files holding
   `older` the run saves `shown`, which loads; a checkpoint of `next` begins, the power fails, and
   the next load gives `older`.
   */
  lemma UnsettledDiskGoesBack(codec: Codec, older: SavedState, shown: SavedState, next: SavedState)
    returns (states: seq<System>, events: seq<Event>)
    requires codec.Lawful() && older.Acceptable() && shown.Acceptable()
    ensures UndisturbedRun(codec, states, events) && |events| >= 2
    ensures Starts(codec, states[0], [older]) && states[0].disk.Settled()
    ensures var n := |events|;
            && states[n - 2].pc.Idle? && states[n - 2].result == Some(Some(InstallFailed(Primary, SyncDir)))
            && Gives(codec, states[n - 2].disk, shown)
            && events[n - 2] == Begin(next) && events[n - 1].PowerFailure?
            && Gives(codec, states[n].disk, older)
            && (older != shown && older != next ==> !OldOrNew(codec, states[n - 2].disk, shown, next))
  {
    EncodedDecodes(codec, older);
    states, events := SyncDirFailed(codec, older, shown);
    var s := states[|events|];
    CrashSafeExactly(codec, s.disk, shown, next);
    var after := SomeCrash(s.disk, Some(0), Some(1));
    states, events := Extended(codec, states, events, Begin(next), s.(pc := Reading(next), attempts := s.attempts + [next]));
    states, events := Extended(codec, states, events, PowerFailure(after), states[|events|].(disk := after, pc := Idle));
  }

  /**
   After a checkpoint of `newer` that reported success a load that cannot read the primary gives
   the state before it, although `newer` is intact.
   */
  lemma UnreadablePrimaryLoadsOlder(codec: Codec, older: SavedState, newer: SavedState)
    returns (states: seq<System>, events: seq<Event>)
    requires codec.Lawful() && older.Acceptable() && newer.Acceptable()
    ensures UndisturbedRun(codec, states, events) && Starts(codec, states[0], [older]) && |events| >= 1
    ensures var n := |events|;
            && Acknowledges(codec, states[n - 1], events[n - 1], states[n], newer)
            && Gives(codec, states[n].disk, newer)
            && LoadReading(codec, states[n].disk, true, false) == Loaded(older, FromBackup, CURRENT_VERSION, false)
  {
    OnlyPrimaryStarts(codec, older);
    EncodedDecodes(codec, older);
    EncodedDecodes(codec, newer);
    states, events := PrimaryRenamed(codec, older, newer);
    states, events := Operated(codec, states, events, Success, 0);
    states, events := Operated(codec, states, events, Success, 0);
  }

  /** Until a file is synced a power failure may leave anything in it, in one just created as in one just written. */
  lemma UnsyncedMayBeLost(d: Disk, id: nat, ino: nat, content: Bytes, lost: Bytes) returns (created: Disk, filled: Disk)
    requires d.Valid() && ino < |d.inodes|
    ensures CrashTo(d.Created(id), created) && created.inodes[|d.inodes|].content == lost
    ensures CrashTo(d.Filled(ino, content), filled) && filled.inodes[ino].content == lost
  {
    var n := |d.inodes|;
    var made, written := d.Created(id), d.Filled(ino, content);
    created := Disk(seq(n + 1, i requires 0 <= i <= n => Inode(if i == n then lost else d.inodes[i].content, true)), made.dir, {});
    filled := Disk(seq(n, i requires 0 <= i < n => Inode(if i == ino then lost else d.inodes[i].content, true)), written.dir, {});
  }
}
