/**
 The two locks around durable state. A snapshot copies the state piece by piece while any number
 of block, node, dashboard and delivery writers, reservations and counters run concurrently.
 Read-write locks behave as Go's: an announced writer keeps new readers out and waits for the
 ones inside.
 */
module LockedSnapshot {
  import opened Basics

  /** A part of durable state: of a chain (blocks, nodes) or of the alarm cache. */
  datatype Piece = ChainPiece(id: nat) | AlarmPiece(id: nat)

  /** `holder` announced itself as writer; it writes once `active`. */
  datatype Lock = Lock(holder: Option<nat>, active: bool, readers: set<nat>)

  /**
   Snapshot copies everything; ChainWriter is a block result or node update; AlarmWriter a
   dashboard record, a clearing of stalls or a completed delivery; Reserver a reservation;
   Counter a count of alarms.
   */
  datatype Role = Snapshot | ChainWriter | AlarmWriter | Reserver | Counter

  datatype Pc = Idle | StateAsked | InState | NotifyAsked | InNotify | AfterNotify

  datatype Thread = Thread(role: Role, pc: Pc, copy: map<Piece, int>)

  /** `store` is the durable state; the numbers stand for the contents of its pieces. */
  datatype System = System(store: map<Piece, int>, state: Lock, notify: Lock, threads: map<nat, Thread>)

  datatype Event =
    | AskState(t: nat) | GetState(t: nat) | LeaveState(t: nat)
    | AskNotify(t: nat) | GetNotify(t: nat) | LeaveNotify(t: nat)
    | Copy(t: nat, p: Piece) | Put(t: nat, p: Piece, v: int)

  predicate UsesState(r: Role) { r.Snapshot? || r.ChainWriter? || r.AlarmWriter? }
  predicate UsesNotify(r: Role) { !r.ChainWriter? }
  predicate Reads(r: Role) { r.Snapshot? || r.Counter? }

  predicate Covers(copy: map<Piece, int>, store: map<Piece, int>, chains: bool) {
    forall p :: p in store && p.ChainPiece? == chains ==> p in copy
  }

  /** The role is past its work under the state lock alone and may go for the notify lock. */
  predicate ReadyForNotify(s: System, th: Thread) {
    && UsesNotify(th.role)
    && th.pc == (if UsesState(th.role) then InState else Idle)
    && (th.role.Snapshot? ==> Covers(th.copy, s.store, true))
  }

  predicate Enabled(s: System, e: Event) {
    && e.t in s.threads
    && var th := s.threads[e.t];
       match e
       case AskState(_) => UsesState(th.role) && !Reads(th.role) && th.pc.Idle? && s.state.holder.None?
       case GetState(_) =>
         if Reads(th.role) then UsesState(th.role) && th.pc.Idle? && s.state.holder.None?
         else th.pc.StateAsked? && s.state.readers == {}
       case LeaveState(_) => th.pc.AfterNotify? || (th.role.ChainWriter? && th.pc.InState?)
       case AskNotify(_) => !Reads(th.role) && ReadyForNotify(s, th) && s.notify.holder.None?
       case GetNotify(_) =>
         if Reads(th.role) then ReadyForNotify(s, th) && s.notify.holder.None?
         else th.pc.NotifyAsked? && s.notify.readers == {}
       case LeaveNotify(_) => th.pc.InNotify? && (th.role.Snapshot? ==> Covers(th.copy, s.store, false))
       case Copy(_, p) =>
         && th.role.Snapshot? && p in s.store && p !in th.copy
         && (if p.ChainPiece? then th.pc.InState? else th.pc.InNotify?)
       case Put(_, p, _) =>
         if p.ChainPiece? then th.role.ChainWriter? && th.pc.InState? else th.role.AlarmWriter? && th.pc.InNotify?
  }

  function Moved(s: System, t: nat, pc: Pc): System
    requires t in s.threads
  {
    s.(threads := s.threads[t := s.threads[t].(pc := pc)])
  }

  function Next(s: System, e: Event): System
    requires Enabled(s, e)
  {
    var th := s.threads[e.t];
    match e
    case AskState(t) => Moved(s, t, StateAsked).(state := s.state.(holder := Some(t)))
    case GetState(t) =>
      if Reads(th.role) then
        s.(threads := s.threads[t := Thread(th.role, InState, map[])], state := s.state.(readers := s.state.readers + {t}))
      else Moved(s, t, InState).(state := s.state.(active := true))
    case LeaveState(t) =>
      Moved(s, t, Idle).(state := if Reads(th.role) then s.state.(readers := s.state.readers - {t})
                                  else Lock(None, false, s.state.readers))
    case AskNotify(t) => Moved(s, t, NotifyAsked).(notify := s.notify.(holder := Some(t)))
    case GetNotify(t) =>
      Moved(s, t, InNotify).(notify := if Reads(th.role) then s.notify.(readers := s.notify.readers + {t})
                                       else s.notify.(active := true))
    case LeaveNotify(t) =>
      Moved(s, t, if UsesState(th.role) then AfterNotify else Idle)
      .(notify := if Reads(th.role) then s.notify.(readers := s.notify.readers - {t})
                  else Lock(None, false, s.notify.readers))
    case Copy(t, p) => s.(threads := s.threads[t := th.(copy := th.copy[p := s.store[p]])])
    case Put(t, p, v) => s.(store := s.store[p := v])
  }

  ghost predicate IsRun(states: seq<System>, events: seq<Event>) {
    && |states| == |events| + 1
    && (forall i :: 0 <= i < |events| ==> Enabled(states[i], events[i]) && states[i + 1] == Next(states[i], events[i]))
  }

  predicate Initial(s: System) {
    && s.state == Lock(None, false, {}) && s.notify == Lock(None, false, {})
    && (forall t :: t in s.threads ==> s.threads[t].pc.Idle?)
  }

  /** The thread holds or asked for the state lock, or the notify lock. */
  predicate AtState(th: Thread) {
    UsesState(th.role) && !th.pc.Idle?
  }

  predicate AtNotify(th: Thread) {
    th.pc.NotifyAsked? || th.pc.InNotify?
  }

  ghost predicate PcsFit(s: System) {
    forall t :: t in s.threads ==>
      var th := s.threads[t];
      && (th.pc.StateAsked? || th.pc.InState? || th.pc.AfterNotify? ==> UsesState(th.role))
      && (th.pc.StateAsked? || th.pc.NotifyAsked? ==> !Reads(th.role))
      && (AtNotify(th) || th.pc.AfterNotify? ==> UsesNotify(th.role))
  }

  /** Each lock is held by exactly the threads whose position says so. */
  ghost predicate StateLockFits(s: System) {
    && (forall t :: t in s.threads && AtState(s.threads[t]) ==>
          if Reads(s.threads[t].role) then t in s.state.readers else s.state.holder == Some(t))
    && (forall t :: t in s.state.readers ==> t in s.threads && AtState(s.threads[t]) && Reads(s.threads[t].role))
    && (s.state.holder.Some? ==>
          var t := s.state.holder.value;
          && t in s.threads && AtState(s.threads[t]) && !Reads(s.threads[t].role)
          && s.state.active == !s.threads[t].pc.StateAsked?)
    && (s.state.active ==> s.state.holder.Some? && s.state.readers == {})
  }

  ghost predicate NotifyLockFits(s: System) {
    && (forall t :: t in s.threads && AtNotify(s.threads[t]) ==>
          if Reads(s.threads[t].role) then t in s.notify.readers else s.notify.holder == Some(t))
    && (forall t :: t in s.notify.readers ==> t in s.threads && s.threads[t].pc.InNotify? && Reads(s.threads[t].role))
    && (s.notify.holder.Some? ==>
          var t := s.notify.holder.value;
          && t in s.threads && AtNotify(s.threads[t]) && !Reads(s.threads[t].role)
          && s.notify.active == s.threads[t].pc.InNotify?)
    && (s.notify.active ==> s.notify.holder.Some? && s.notify.readers == {})
  }

  /** What a snapshot has copied so far is what is stored now. */
  ghost predicate Coherent(s: System) {
    forall t :: t in s.threads && s.threads[t].role.Snapshot? && !s.threads[t].pc.Idle? ==>
      var th := s.threads[t];
      && (forall p :: p in th.copy ==> p in s.store && th.copy[p] == s.store[p])
      && (th.pc.InNotify? || th.pc.AfterNotify? ==> Covers(th.copy, s.store, true))
      && (th.pc.AfterNotify? ==> Covers(th.copy, s.store, false))
  }

  ghost predicate Sound(s: System) {
    PcsFit(s) && StateLockFits(s) && NotifyLockFits(s) && Coherent(s)
  }

  lemma StepPcs(s: System, e: Event)
    requires PcsFit(s) && Enabled(s, e)
    ensures PcsFit(Next(s, e))
  {
  }

  lemma StepState(s: System, e: Event)
    requires PcsFit(s) && StateLockFits(s) && Enabled(s, e)
    ensures StateLockFits(Next(s, e))
  {
  }

  predicate OfNotify(e: Event) {
    e.AskNotify? || e.GetNotify? || e.LeaveNotify?
  }

  lemma NotifySteps(s: System, e: Event)
    requires PcsFit(s) && NotifyLockFits(s) && Enabled(s, e) && OfNotify(e)
    ensures NotifyLockFits(Next(s, e))
  {
  }

  lemma StepNotify(s: System, e: Event)
    requires PcsFit(s) && NotifyLockFits(s) && Enabled(s, e)
    ensures NotifyLockFits(Next(s, e))
  {
    if OfNotify(e) {
      NotifySteps(s, e);
    }
  }

  lemma StepCoherent(s: System, e: Event)
    requires Sound(s) && Enabled(s, e)
    ensures Coherent(Next(s, e))
  {
  }

  lemma StepSound(s: System, e: Event)
    requires Sound(s) && Enabled(s, e)
    ensures Sound(Next(s, e))
  {
    StepPcs(s, e);
    StepState(s, e);
    StepNotify(s, e);
    StepCoherent(s, e);
  }

  lemma {:induction false} RunSound(states: seq<System>, events: seq<Event>, k: nat)
    requires IsRun(states, events) && k < |states| && Initial(states[0])
    ensures Sound(states[k])
  {
    if k > 0 {
      RunSound(states, events, k - 1);
      StepSound(states[k - 1], events[k - 1]);
    }
  }

  /** Thread `t` holds the lock as its writer. */
  predicate Writes(l: Lock, t: nat) {
    l.holder == Some(t) && l.active
  }

  /**
   Every access is under its locks: chain pieces are written holding the state lock and copied
   sharing it; alarm pieces are written holding both locks and copied sharing both.
   */
  lemma AccessUnderLock(states: seq<System>, events: seq<Event>, k: nat, t: nat, p: Piece, v: int)
    requires IsRun(states, events) && k < |states| && Initial(states[0])
    ensures Enabled(states[k], Put(t, p, v)) ==>
              Writes(states[k].state, t) && (p.AlarmPiece? ==> Writes(states[k].notify, t))
    ensures Enabled(states[k], Copy(t, p)) ==>
              t in states[k].state.readers && (p.AlarmPiece? ==> t in states[k].notify.readers)
  {
    RunSound(states, events, k);
  }

  /** So no piece is ever open to a writer and to anyone else at once. */
  lemma NoRace(states: seq<System>, events: seq<Event>, k: nat, t: nat, u: nat, p: Piece, v: int, w: int)
    requires IsRun(states, events) && k < |states| && Initial(states[0]) && t != u
    requires Enabled(states[k], Put(t, p, v))
    ensures !Enabled(states[k], Put(u, p, w)) && !Enabled(states[k], Copy(u, p))
  {
    RunSound(states, events, k);
    AccessUnderLock(states, events, k, t, p, v);
    AccessUnderLock(states, events, k, u, p, w);
  }

  /** Thread `t` is taking a snapshot through all of states[i..k]. */
  ghost predicate Throughout(states: seq<System>, t: nat, i: nat, k: nat) {
    forall m :: i <= m <= k && m < |states| ==>
      t in states[m].threads && states[m].threads[t].role.Snapshot? && !states[m].threads[t].pc.Idle?
  }

  lemma StepKeepsStore(s: System, e: Event, t: nat)
    requires Sound(s) && Enabled(s, e)
    requires t in s.threads && s.threads[t].role.Snapshot? && !s.threads[t].pc.Idle?
    ensures Next(s, e).store == s.store
  {
    assert t in s.state.readers && !s.state.active;
  }

  lemma StandsOneStep(states: seq<System>, events: seq<Event>, t: nat, k: nat)
    requires IsRun(states, events) && k < |events| && Initial(states[0])
    requires t in states[k].threads && states[k].threads[t].role.Snapshot? && !states[k].threads[t].pc.Idle?
    ensures states[k + 1].store == states[k].store
  {
    RunSound(states, events, k);
    StepKeepsStore(states[k], events[k], t);
  }

  /** While a snapshot is under way the durable state does not change. */
  lemma {:induction false} StoreStands(states: seq<System>, events: seq<Event>, t: nat, i: nat, k: nat)
    requires IsRun(states, events) && i <= k < |states| && Initial(states[0]) && Throughout(states, t, i, k)
    ensures states[k].store == states[i].store
    decreases k
  {
    if i < k {
      StoreStands(states, events, t, i, k - 1);
      StandsOneStep(states, events, t, k - 1);
    }
  }

  /**
   A finished snapshot is the durable state of one instant, indeed of every instant since the
   snapshot took its lock, in every interleaving with the writers.
   */
  lemma SnapshotIsOneInstant(states: seq<System>, events: seq<Event>, t: nat, i: nat, k: nat)
    requires IsRun(states, events) && i <= k < |states| && Initial(states[0]) && Throughout(states, t, i, k)
    requires states[k].threads[t].pc.AfterNotify?
    ensures states[k].threads[t].copy == states[i].store
  {
    RunSound(states, events, k);
    StoreStands(states, events, t, i, k);
    var th := states[k].threads[t];
    forall p | p in states[k].store
      ensures p in th.copy
    {
      assert Covers(th.copy, states[k].store, p.ChainPiece?);
    }
    assert th.copy.Keys == states[k].store.Keys;
  }

  /** A step by which a thread that has begun comes closer to its end. */
  predicate Advances(s: System, e: Event) {
    && Enabled(s, e) && !s.threads[e.t].pc.Idle? && !e.Put?
  }

  /** A snapshot in a section it can read: it copies another piece or goes on. */
  lemma SnapshotGoesOn(s: System, t: nat)
    requires t in s.threads && s.threads[t].role.Snapshot?
    requires s.threads[t].pc.InNotify? || (s.threads[t].pc.InState? && s.notify.holder.None?)
    ensures exists e :: Advances(s, e)
  {
    var th := s.threads[t];
    if p :| p in s.store && p.ChainPiece? == th.pc.InState? && p !in th.copy {
      assert Advances(s, Copy(t, p));
    } else {
      assert Advances(s, if th.pc.InState? then GetNotify(t) else LeaveNotify(t));
    }
  }

  lemma NotifyGoesOn(s: System)
    requires Sound(s) && (s.notify.holder.Some? || s.notify.readers != {})
    ensures exists e :: Advances(s, e)
  {
    if s.notify.readers != {} {
      var t :| t in s.notify.readers;
      if s.threads[t].role.Snapshot? {
        SnapshotGoesOn(s, t);
      } else {
        assert Advances(s, LeaveNotify(t));
      }
    } else {
      var t := s.notify.holder.value;
      assert Advances(s, if s.notify.active then LeaveNotify(t) else GetNotify(t));
    }
  }

  lemma StateGoesOn(s: System)
    requires Sound(s) && s.notify.holder.None? && s.notify.readers == {}
    requires s.state.holder.Some? || s.state.readers != {}
    ensures exists e :: Advances(s, e)
  {
    if s.state.readers != {} {
      var t :| t in s.state.readers;
      assert !AtNotify(s.threads[t]);
      if s.threads[t].pc.InState? {
        SnapshotGoesOn(s, t);
      } else {
        assert Advances(s, LeaveState(t));
      }
    } else {
      var t := s.state.holder.value;
      var th := s.threads[t];
      assert !AtNotify(th);
      assert Advances(s, if !s.state.active then GetState(t)
                         else if th.role.AlarmWriter? && th.pc.InState? then AskNotify(t) else LeaveState(t));
    }
  }

  /**
   No deadlock: as long as some thread has begun, one that has begun can go on, however the
   locks are contended.
   */
  lemma NoDeadlock(states: seq<System>, events: seq<Event>, k: nat, t: nat)
    requires IsRun(states, events) && k < |states| && Initial(states[0])
    requires t in states[k].threads && !states[k].threads[t].pc.Idle?
    ensures exists e :: Advances(states[k], e)
  {
    RunSound(states, events, k);
    var s := states[k];
    if s.notify.holder.Some? || s.notify.readers != {} {
      NotifyGoesOn(s);
    } else {
      assert !AtNotify(s.threads[t]);
      assert AtState(s.threads[t]);
      StateGoesOn(s);
    }
  }
}
