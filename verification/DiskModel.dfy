/**
 The directory that holds the state files, as a running process sees it and as a power failure
 may leave it. File data and directory entries become durable separately: data by a file sync,
 entries by a directory sync. Rename is atomic.
 */
module DiskModel {
  import opened Basics
  import opened StateDocument

  datatype Name = Primary | Backup | Temp(id: nat)

  predicate IsStateFile(n: Name) {
    n == Primary || n == Backup
  }

  /** `synced` says that the content survives a power failure. */
  datatype Inode = Inode(content: Bytes, synced: bool)

  /**
   `dir` is the visible directory. `stale` holds the entries that names had since the last
   directory sync; after a power failure each name independently shows its visible entry or
   one of these.
   */
  datatype Disk = Disk(inodes: seq<Inode>, dir: map<Name, nat>, stale: set<(Name, Option<nat>)>)
  {
    function Entry(n: Name): Option<nat> {
      if n in dir then Some(dir[n]) else None
    }

    /** `e` may be the entry of `n` after a power failure. */
    ghost predicate May(n: Name, e: Option<nat>) {
      e == Entry(n) || (n, e) in stale
    }

    ghost predicate Valid() {
      && (forall n :: n in dir ==> dir[n] < |inodes|)
      && (forall n, e :: (n, e) in stale && e.Some? ==> e.value < |inodes|)
    }

    /** What reading through an entry gives. */
    function At(e: Option<nat>): ReadResult {
      if e.Some? && e.value < |inodes| then Data(inodes[e.value].content) else NotExist
    }

    function Read(n: Name): ReadResult {
      At(Entry(n))
    }

    /** A power failure changes neither state file: no other entry is possible, and the data is synced. */
    ghost predicate Settled() {
      && Valid()
      && (forall n, e :: IsStateFile(n) && May(n, e) ==> e == Entry(n))
      && (forall n :: IsStateFile(n) && n in dir ==> inodes[dir[n]].synced)
    }

    function Created(id: nat): Disk {
      Disk(inodes + [Inode([], false)], dir[Temp(id) := |inodes|], stale + {(Temp(id), Entry(Temp(id)))})
    }

    function Filled(ino: nat, content: Bytes): Disk
      requires ino < |inodes|
    {
      this.(inodes := inodes[ino := Inode(content, false)])
    }

    function FileSynced(ino: nat): Disk
      requires ino < |inodes|
    {
      this.(inodes := inodes[ino := inodes[ino].(synced := true)])
    }

    function Renamed(from: Name, to: Name): Disk
      requires from in dir && from != to
    {
      Disk(inodes, (dir - {from})[to := dir[from]], stale + {(from, Entry(from)), (to, Entry(to))})
    }

    function DirSynced(): Disk {
      this.(stale := {})
    }

    function Removed(n: Name): Disk {
      Disk(inodes, dir - {n}, stale + {(n, Entry(n))})
    }
  }

  /** A power failure and restart turns `d` into `d'`. */
  ghost predicate CrashTo(d: Disk, d': Disk) {
    && |d'.inodes| == |d.inodes|
    && d'.stale == {}
    && (forall n :: d.May(n, d'.Entry(n)))
    && (forall i :: 0 <= i < |d.inodes| ==>
          d'.inodes[i].synced && (d.inodes[i].synced ==> d'.inodes[i].content == d.inodes[i].content))
  }

  /** Something outside the program rewrites, replaces or removes the primary, and touches no other file. */
  ghost predicate PrimaryChangedTo(d: Disk, d': Disk) {
    && d'.Valid()
    && |d.inodes| <= |d'.inodes|
    && (forall n :: n != Primary ==> d'.Entry(n) == d.Entry(n))
    && (forall n, e :: n != Primary ==> ((n, e) in d'.stale <==> (n, e) in d.stale))
    && (forall e :: d'.May(Primary, e) && e.Some? ==> d.May(Primary, e) || |d.inodes| <= e.value)
    && (forall i :: 0 <= i < |d.inodes| && !d.May(Primary, Some(i)) ==> d'.inodes[i] == d.inodes[i])
  }
}
