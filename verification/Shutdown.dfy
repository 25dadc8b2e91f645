/**
 Shutdown as a barrier over concurrent threads: the ingress gate, the wait groups, the bounded
 alert channel, the notification worker, the drain timeout and the one checkpoint.
 */
module Shutdown {
  import opened Basics

  const CAPACITY := 64
  const DESTS := {Pd, Tg, Di, Slk}

  /** What can happen to durable state: a monitor's own write, or one on behalf of the alert sent as number `n`. */
  datatype Write = MonitorWrite(thread: nat) | DashboardWrite(n: nat) | DeliveryDone(n: nat, dest: Dest)

  datatype Worker = NotStarted | Waiting | Delivering(n: nat, pending: set<Dest>) | Exited

  /** Where the one call of shutdown is; `Running` before it. */
  datatype Phase =
    | Running | GateClosed | Cancelled | AwaitMonitors | AwaitIngress | Quiet
    | AwaitWorker | Drained | Finished | TimedOut

  /**
   `entered` are the threads past the gate that have not sent yet, `recording` those that sent
   alert n and have not recorded it on the dashboard, `leaving` those that have. `log` is the
   durable state as the sequence of all writes to it.
   */
  datatype System = System(
    accepting: bool,
    monitors: set<nat>,
    entered: set<nat>,
    recording: map<nat, nat>,
    leaving: set<nat>,
    monitorsWG: nat,
    ingressWG: nat,
    workerWG: nat,
    queue: seq<nat>,
    sent: nat,
    closed: bool,
    panicked: bool,
    worker: Worker,
    phase: Phase,
    log: seq<Write>,
    saved: Option<seq<Write>>,
    checkpoints: nat)

  datatype Event =
    | StartWorker | StartMonitor(t: nat) | MonitorStep(t: nat) | MonitorExit(t: nat)
    | Enter(t: nat) | Send(t: nat) | Record(t: nat) | Leave(t: nat)
    | Take | DestDone(d: Dest) | AlertDone | WorkerExit
    | CloseGate | Cancel | BeginWait | SeeMonitors | SeeIngress | CloseChannel | SeeWorker | Save | Timeout

  predicate InCall(s: System, t: nat) {
    t in s.entered || t in s.recording || t in s.leaving
  }

  predicate Enabled(s: System, e: Event) {
    match e
    case StartWorker => s.phase.Running? && s.worker.NotStarted?
    case StartMonitor(t) => s.phase.Running? && t !in s.monitors && !InCall(s, t)
    case MonitorStep(t) => t in s.monitors && !InCall(s, t)
    case MonitorExit(t) => t in s.monitors && !InCall(s, t)
    case Enter(t) => s.accepting && !InCall(s, t)
    case Send(t) => t in s.entered && (|s.queue| < CAPACITY || s.closed)
    case Record(t) => t in s.recording
    case Leave(t) => t in s.leaving && s.ingressWG > 0
    case Take => s.worker.Waiting? && s.queue != []
    case DestDone(d) => s.worker.Delivering? && d in s.worker.pending
    case AlertDone => s.worker.Delivering? && s.worker.pending == {}
    case WorkerExit => s.worker.Waiting? && s.queue == [] && s.closed && s.workerWG > 0
    case CloseGate => s.phase.Running?
    case Cancel => s.phase.GateClosed?
    case BeginWait => s.phase.Cancelled?
    case SeeMonitors => s.phase.AwaitMonitors? && s.monitorsWG == 0
    case SeeIngress => s.phase.AwaitIngress? && s.ingressWG == 0
    case CloseChannel => s.phase.Quiet?
    case SeeWorker => s.phase.AwaitWorker? && s.workerWG == 0
    case Save => s.phase.Drained?
    case Timeout => s.phase.AwaitMonitors? || s.phase.AwaitIngress? || s.phase.Quiet? || s.phase.AwaitWorker? || s.phase.Drained?
  }

  function Next(s: System, e: Event): System
    requires Enabled(s, e)
  {
    match e
    case StartWorker => s.(worker := Waiting, workerWG := s.workerWG + 1)
    case StartMonitor(t) => s.(monitors := s.monitors + {t}, monitorsWG := s.monitorsWG + 1)
    case MonitorStep(t) => s.(log := s.log + [MonitorWrite(t)])
    case MonitorExit(t) => s.(monitors := s.monitors - {t}, monitorsWG := if s.monitorsWG > 0 then s.monitorsWG - 1 else 0)
    case Enter(t) => s.(entered := s.entered + {t}, ingressWG := s.ingressWG + 1)
    case Send(t) =>
      if s.closed then s.(panicked := true)
      else s.(entered := s.entered - {t}, recording := s.recording[t := s.sent],
              queue := s.queue + [s.sent], sent := s.sent + 1)
    case Record(t) =>
      s.(recording := s.recording - {t}, leaving := s.leaving + {t}, log := s.log + [DashboardWrite(s.recording[t])])
    case Leave(t) => s.(leaving := s.leaving - {t}, ingressWG := s.ingressWG - 1)
    case Take => s.(worker := Delivering(s.queue[0], DESTS), queue := s.queue[1..])
    case DestDone(d) =>
      s.(worker := Delivering(s.worker.n, s.worker.pending - {d}), log := s.log + [DeliveryDone(s.worker.n, d)])
    case AlertDone => s.(worker := Waiting)
    case WorkerExit => s.(worker := Exited, workerWG := s.workerWG - 1)
    case CloseGate => s.(accepting := false, phase := GateClosed)
    case Cancel => s.(phase := Cancelled)
    case BeginWait => s.(phase := AwaitMonitors)
    case SeeMonitors => s.(phase := AwaitIngress)
    case SeeIngress => s.(phase := Quiet)
    case CloseChannel => if s.closed then s.(panicked := true) else s.(closed := true, phase := AwaitWorker)
    case SeeWorker => s.(phase := Drained)
    case Save => s.(phase := Finished, saved := Some(s.log), checkpoints := s.checkpoints + 1)
    case Timeout => s.(phase := TimedOut)
  }

  ghost predicate IsRun(states: seq<System>, events: seq<Event>) {
    && |states| == |events| + 1
    && states[0] == INITIAL
    && (forall i :: 0 <= i < |events| ==> Enabled(states[i], events[i]) && states[i + 1] == Next(states[i], events[i]))
  }

  const INITIAL :=
    System(true, {}, {}, map[], {}, 0, 0, 0, [], 0, false, false, NotStarted, Running, [], None, 0)

  /** The wait groups count what they should, and no thread is in two places. */
  ghost predicate Counted(s: System) {
    && s.monitorsWG == |s.monitors|
    && s.ingressWG == |s.entered| + |s.recording| + |s.leaving|
    && s.workerWG == (if s.worker.Waiting? || s.worker.Delivering? then 1 else 0)
    && (forall t :: t in s.entered ==> t !in s.recording && t !in s.leaving)
    && (forall t :: t in s.recording ==> t !in s.leaving)
  }

  ghost predicate NoIngress(s: System) {
    !s.accepting && s.entered == {} && s.recording == map[] && s.leaving == {}
  }

  /** Where shutdown is says what can no longer happen. */
  ghost predicate Ordered(s: System) {
    && !s.panicked
    && |s.queue| <= CAPACITY
    && (s.phase.Running? <==> s.accepting)
    && (s.phase.AwaitIngress? || s.phase.Quiet? || s.closed ==> s.monitors == {})
    && (s.phase.Quiet? || s.closed ==> NoIngress(s))
    && (s.closed ==> s.phase.AwaitWorker? || s.phase.Drained? || s.phase.Finished? || s.phase.TimedOut?)
    && (s.phase.AwaitWorker? || s.phase.Drained? || s.phase.Finished? ==> s.closed)
    && (s.phase.Drained? || s.phase.Finished? ==> s.workerWG == 0)
    && (s.worker.Exited? ==> s.closed && s.queue == [])
    && s.checkpoints == (if s.phase.Finished? then 1 else 0)
    && (s.phase.Finished? <==> s.saved.Some?)
    && (s.saved.Some? ==> s.saved.value == s.log)
  }

  function Taken(s: System): int {
    s.sent - |s.queue|
  }

  /** The queue is what was sent and not taken, in order. */
  ghost predicate Queued(s: System) {
    && Taken(s) >= 0
    && (forall i :: 0 <= i < |s.queue| ==> s.queue[i] == Taken(s) + i)
    && (s.worker.NotStarted? ==> Taken(s) == 0)
    && (s.worker.Delivering? ==> s.worker.n == Taken(s) - 1 && s.worker.pending <= DESTS)
  }

  /** Exactly what was taken is delivered, but for what the worker is still at. */
  ghost predicate Delivered(s: System) {
    && (forall n, d :: 0 <= n < Taken(s) && !(s.worker.Delivering? && n == s.worker.n && d in s.worker.pending) ==>
          DeliveryDone(n, d) in s.log)
    && (forall n: nat, d :: DeliveryDone(n, d) in s.log ==> n < Taken(s))
  }

  /** What was sent is on the dashboard, but for what a thread is still about to record. */
  ghost predicate Dashboarded(s: System) {
    forall n :: 0 <= n < s.sent ==> DashboardWrite(n) in s.log || exists t :: t in s.recording && s.recording[t] == n
  }

  ghost predicate Accounted(s: System) {
    Queued(s) && Delivered(s) && Dashboarded(s)
  }

  lemma CallsCounted(s: System, e: Event)
    requires Counted(s) && Enabled(s, e) && (e.Enter? || e.Send? || e.Record? || e.Leave?)
    ensures Counted(Next(s, e))
  {
    var s' := Next(s, e);
    match e
    case Enter(t) => assert |s'.entered| == |s.entered| + 1;
    case Send(t) =>
      if !s.closed {
        assert |s'.recording| == |s.recording| + 1 && |s'.entered| == |s.entered| - 1;
      }
    case Record(t) =>
      assert s'.recording.Keys == s.recording.Keys - {t};
      assert |s'.recording| == |s.recording| - 1 && |s'.leaving| == |s.leaving| + 1;
    case Leave(t) => assert |s'.leaving| == |s.leaving| - 1;
  }

  lemma MonitorsCounted(s: System, e: Event)
    requires Counted(s) && Enabled(s, e) && (e.StartMonitor? || e.MonitorStep? || e.MonitorExit?)
    ensures Counted(Next(s, e))
  {
    if e.StartMonitor? {
      assert |s.monitors + {e.t}| == |s.monitors| + 1;
    } else if e.MonitorExit? {
      assert |s.monitors - {e.t}| == |s.monitors| - 1;
    }
  }

  /** Steps of shutdown itself. */
  predicate OfShutdown(e: Event) {
    match e
    case CloseGate | Cancel | BeginWait | SeeMonitors | SeeIngress | CloseChannel | SeeWorker | Save | Timeout => true
    case _ => false
  }

  lemma ShutdownCounted(s: System, e: Event)
    requires Counted(s) && Enabled(s, e) && OfShutdown(e)
    ensures Counted(Next(s, e))
  {
    var s' := Next(s, e);
    assert s'.monitors == s.monitors && s'.entered == s.entered && s'.recording == s.recording && s'.leaving == s.leaving;
  }

  lemma StepCounted(s: System, e: Event)
    requires Counted(s) && Enabled(s, e)
    ensures Counted(Next(s, e))
  {
    match e
    case Enter(_) | Send(_) | Record(_) | Leave(_) => CallsCounted(s, e);
    case StartMonitor(_) | MonitorStep(_) | MonitorExit(_) => MonitorsCounted(s, e);
    case StartWorker | Take | DestDone(_) | AlertDone | WorkerExit =>
    case _ => ShutdownCounted(s, e);
  }

  lemma ShutdownOrdered(s: System, e: Event)
    requires Counted(s) && Ordered(s) && Enabled(s, e) && OfShutdown(e)
    ensures Ordered(Next(s, e))
  {
  }

  lemma StepOrdered(s: System, e: Event)
    requires Counted(s) && Ordered(s) && Enabled(s, e)
    ensures Ordered(Next(s, e))
  {
    if OfShutdown(e) {
      ShutdownOrdered(s, e);
    }
  }

  lemma AnyDest(d: Dest)
    ensures d in DESTS && |DESTS| == 4
  {
    match d case Pd => case Tg => case Di => case Slk =>
  }

  lemma DashboardAccounted(s: System, e: Event)
    requires Counted(s) && Ordered(s) && Accounted(s) && Enabled(s, e)
    ensures Dashboarded(Next(s, e))
  {
    var s' := Next(s, e);
    forall n | 0 <= n < s'.sent
      ensures DashboardWrite(n) in s'.log || exists t :: t in s'.recording && s'.recording[t] == n
    {
      if n == s.sent {
        assert s'.recording[e.t] == n;
      } else if DashboardWrite(n) !in s.log {
        var t :| t in s.recording && s.recording[t] == n;
        assert t in s'.recording || (e == Record(t) && s'.log[|s.log|] == DashboardWrite(n));
      }
    }
  }

  lemma WorkerAccounted(s: System, e: Event)
    requires Ordered(s) && Accounted(s) && Enabled(s, e) && (e.Take? || e.DestDone? || e.AlertDone?)
    ensures Queued(Next(s, e)) && Delivered(Next(s, e))
  {
    var s' := Next(s, e);
    forall d: Dest ensures d in DESTS { AnyDest(d); }
    if e.DestDone? {
      assert s'.log[|s.log|] == DeliveryDone(s.worker.n, e.d);
    }
  }

  lemma OthersAccounted(s: System, e: Event)
    requires Ordered(s) && Accounted(s) && Enabled(s, e) && !e.Take? && !e.DestDone? && !e.AlertDone?
    ensures Queued(Next(s, e)) && Delivered(Next(s, e))
  {
    var s' := Next(s, e);
    if !e.Send? {
      assert s'.queue == s.queue && s'.sent == s.sent;
    }
  }

  lemma StepAccounted(s: System, e: Event)
    requires Counted(s) && Ordered(s) && Accounted(s) && Enabled(s, e)
    ensures Accounted(Next(s, e))
  {
    DashboardAccounted(s, e);
    if e.Take? || e.DestDone? || e.AlertDone? {
      WorkerAccounted(s, e);
    } else {
      OthersAccounted(s, e);
    }
  }

  ghost predicate Sound(s: System) {
    Counted(s) && Ordered(s) && Accounted(s)
  }

  lemma {:induction false} RunSound(states: seq<System>, events: seq<Event>, k: nat)
    requires IsRun(states, events) && k < |states|
    ensures Sound(states[k])
  {
    if k > 0 {
      RunSound(states, events, k - 1);
      StepCounted(states[k - 1], events[k - 1]);
      StepOrdered(states[k - 1], events[k - 1]);
      StepAccounted(states[k - 1], events[k - 1]);
    }
  }

  /** Everything the gate let in was recorded on the dashboard and finished at all four destinations. */
  ghost predicate AllDelivered(s: System, log: seq<Write>) {
    forall n, d :: 0 <= n < s.sent ==> DashboardWrite(n) in log && DeliveryDone(n, d) in log
  }

  /**
   If the checkpoint ran, it holds the final durable state: no write came or can come after it,
   nothing is left in a call or running, and no further write is possible.
   */
  lemma CheckpointIsFinal(states: seq<System>, events: seq<Event>, k: nat)
    requires IsRun(states, events) && k < |states| && states[k].saved.Some?
    ensures states[k].saved.value == states[k].log
    ensures forall e :: Enabled(states[k], e) ==> Next(states[k], e).log == states[k].log
    ensures NoIngress(states[k]) && states[k].monitors == {}
    ensures forall n :: 0 <= n < states[k].sent ==> DashboardWrite(n) in states[k].saved.value
  {
    RunSound(states, events, k);
  }

  /**
   The lifecycle on its own, with any threads raising alerts: the checkpoint holds every alert the
   gate let in, delivered, and the queue is empty, exactly when the worker was started or no alert
   was sent.
   */
  lemma HoldsAllAlertsExactly(states: seq<System>, events: seq<Event>, k: nat)
    requires IsRun(states, events) && k < |states| && states[k].saved.Some?
    ensures AllDelivered(states[k], states[k].saved.value) <==> !states[k].worker.NotStarted? || states[k].sent == 0
    ensures states[k].queue == [] <==> !states[k].worker.NotStarted? || states[k].sent == 0
  {
    RunSound(states, events, k);
    var s := states[k];
    if s.worker.NotStarted? && s.sent > 0 {
      assert DeliveryDone(0, Pd) !in s.log;
      assert !AllDelivered(s, s.log);
    }
  }

  /**
   A run of the whole program: it starts monitors only after the worker, and only monitors raise
   alerts. A signal may come before either, and then shutdown finds neither.
   */
  ghost predicate IsProgramRun(states: seq<System>, events: seq<Event>) {
    && IsRun(states, events)
    && (forall i :: 0 <= i < |events| && events[i].StartMonitor? ==> !states[i].worker.NotStarted?)
    && (forall i :: 0 <= i < |events| && events[i].Enter? ==> events[i].t in states[i].monitors)
  }

  /** Without a worker there is nothing for it to do. */
  ghost predicate WorkerFirst(s: System) {
    s.worker.NotStarted? ==>
      s.monitors == {} && s.sent == 0 && s.entered == {} && s.recording == map[] && s.leaving == {}
  }

  lemma StepWorkerFirst(s: System, e: Event)
    requires WorkerFirst(s) && Enabled(s, e)
    requires (e.StartMonitor? ==> !s.worker.NotStarted?) && (e.Enter? ==> e.t in s.monitors)
    ensures WorkerFirst(Next(s, e))
  {
  }

  lemma {:induction false} WorkerStartsFirst(states: seq<System>, events: seq<Event>, k: nat)
    requires IsProgramRun(states, events) && k < |states|
    ensures WorkerFirst(states[k])
  {
    if k > 0 {
      WorkerStartsFirst(states, events, k - 1);
      StepWorkerFirst(states[k - 1], events[k - 1]);
    }
  }

  /** The program's checkpoint holds every alert that was ever sent, delivered, and the queue is empty. */
  lemma CheckpointHoldsAllAlerts(states: seq<System>, events: seq<Event>, k: nat)
    requires IsProgramRun(states, events) && k < |states| && states[k].saved.Some?
    ensures AllDelivered(states[k], states[k].saved.value) && states[k].queue == []
  {
    WorkerStartsFirst(states, events, k);
    HoldsAllAlertsExactly(states, events, k);
  }

  /** Deliveries finish in the order in which the alerts were sent. */
  ghost predicate InSendOrder(log: seq<Write>) {
    forall i, j :: 0 <= i < j < |log| && log[i].DeliveryDone? && log[j].DeliveryDone? ==> log[i].n <= log[j].n
  }

  lemma StepInOrder(s: System, e: Event)
    requires Queued(s) && Delivered(s) && InSendOrder(s.log) && Enabled(s, e)
    ensures InSendOrder(Next(s, e).log)
  {
    if e.DestDone? {
      forall i | 0 <= i < |s.log| && s.log[i].DeliveryDone?
        ensures s.log[i].n <= s.worker.n
      {
        assert DeliveryDone(s.log[i].n, s.log[i].dest) in s.log;
      }
    }
  }

  /** In every run alerts are delivered first in, first out. */
  lemma {:induction false} FirstInFirstOut(states: seq<System>, events: seq<Event>, k: nat)
    requires IsRun(states, events) && k < |states|
    ensures InSendOrder(states[k].log)
  {
    if k > 0 {
      FirstInFirstOut(states, events, k - 1);
      RunSound(states, events, k - 1);
      StepInOrder(states[k - 1], events[k - 1]);
    }
  }

  /** The alerts whose delivery to the destination finished, in order. */
  function Served(log: seq<Write>, d: Dest): seq<nat> {
    if log == [] then []
    else
      var last := log[|log| - 1];
      Served(log[..|log| - 1], d) + (if last.DeliveryDone? && last.dest == d then [last.n] else [])
  }

  function Upto(n: nat): seq<nat> {
    seq(n, i => i)
  }

  /** How many deliveries to the destination have finished. */
  function DoneFor(s: System, d: Dest): int {
    Taken(s) - (if s.worker.Delivering? && d in s.worker.pending then 1 else 0)
  }

  lemma ServedAppended(log: seq<Write>, w: Write, d: Dest)
    ensures Served(log + [w], d) == Served(log, d) + (if w.DeliveryDone? && w.dest == d then [w.n] else [])
  {
    assert (log + [w])[..|log|] == log;
  }

  /** The destination finished the first alerts sent, each once and in order. */
  ghost predicate ServesInOrder(s: System, d: Dest) {
    DoneFor(s, d) >= 0 && Served(s.log, d) == Upto(DoneFor(s, d))
  }

  lemma UptoAppended(n: nat)
    ensures Upto(n + 1) == Upto(n) + [n]
  {
  }

  lemma DestServes(s: System, dest: Dest, d: Dest)
    requires Queued(s) && ServesInOrder(s, d) && Enabled(s, DestDone(dest))
    ensures ServesInOrder(Next(s, DestDone(dest)), d)
  {
    var s' := Next(s, DestDone(dest));
    ServedAppended(s.log, DeliveryDone(s.worker.n, dest), d);
    if dest == d {
      assert DoneFor(s, d) == s.worker.n && DoneFor(s', d) == s.worker.n + 1;
      UptoAppended(s.worker.n);
    } else {
      assert DoneFor(s', d) == DoneFor(s, d) && Served(s.log, d) + [] == Served(s.log, d);
    }
  }

  lemma WorkerServes(s: System, e: Event, d: Dest)
    requires Queued(s) && ServesInOrder(s, d) && Enabled(s, e) && (e.Take? || e.DestDone? || e.AlertDone?)
    ensures ServesInOrder(Next(s, e), d)
  {
    if e.DestDone? {
      DestServes(s, e.d, d);
    } else {
      AnyDest(d);
      assert DoneFor(Next(s, e), d) == DoneFor(s, d);
    }
  }

  lemma OthersServe(s: System, e: Event, d: Dest)
    requires Queued(s) && ServesInOrder(s, d) && Enabled(s, e) && !e.Take? && !e.DestDone? && !e.AlertDone?
    ensures ServesInOrder(Next(s, e), d)
  {
    var s' := Next(s, e);
    assert DoneFor(s', d) == DoneFor(s, d);
    if e.MonitorStep? {
      ServedAppended(s.log, MonitorWrite(e.t), d);
    } else if e.Record? {
      ServedAppended(s.log, DashboardWrite(s.recording[e.t]), d);
    } else {
      assert s'.log == s.log;
    }
  }

  /** In every run each destination finishes the alerts in the order they were sent, each once. */
  lemma {:induction false} ServedInOrder(states: seq<System>, events: seq<Event>, k: nat, d: Dest)
    requires IsRun(states, events) && k < |states|
    ensures ServesInOrder(states[k], d)
  {
    if k > 0 {
      ServedInOrder(states, events, k - 1, d);
      RunSound(states, events, k - 1);
      var s, e := states[k - 1], events[k - 1];
      if e.Take? || e.DestDone? || e.AlertDone? {
        WorkerServes(s, e, d);
      } else {
        OthersServe(s, e, d);
      }
    }
  }

  /** By the program's checkpoint each destination has finished all alerts. */
  lemma AllServed(states: seq<System>, events: seq<Event>, k: nat, d: Dest)
    requires IsProgramRun(states, events) && k < |states| && states[k].saved.Some?
    ensures Served(states[k].log, d) == Upto(states[k].sent)
  {
    RunSound(states, events, k);
    CheckpointHoldsAllAlerts(states, events, k);
    ServedInOrder(states, events, k, d);
  }

  /** At most one checkpoint is taken, and none if a drain timed out. */
  lemma OneCheckpoint(states: seq<System>, events: seq<Event>, k: nat)
    requires IsRun(states, events) && k < |states|
    ensures states[k].checkpoints <= 1
    ensures states[k].phase.TimedOut? ==> states[k].checkpoints == 0 && states[k].saved.None?
  {
    RunSound(states, events, k);
  }

  /** No run sends on the closed channel or closes it twice, and the queue stays within its capacity. */
  lemma ChannelIsSafe(states: seq<System>, events: seq<Event>, k: nat)
    requires IsRun(states, events) && k < |states|
    ensures !states[k].panicked && |states[k].queue| <= 64
    ensures states[k].closed ==> !Enabled(states[k], CloseChannel) && forall t :: !Enabled(states[k], Send(t))
  {
    RunSound(states, events, k);
  }

  /** No monitor runs, no thread is in a call, and none can start either. */
  ghost predicate AllQuiet(s: System) {
    NoIngress(s) && s.monitors == {} && s.monitorsWG == 0 && s.ingressWG == 0 && !s.phase.Running?
  }

  lemma QuietStays(s: System, e: Event)
    requires AllQuiet(s) && Enabled(s, e)
    ensures AllQuiet(Next(s, e))
  {
  }

  /** Waiting for the monitors first and for ingress second finds both at zero together, for good. */
  lemma {:induction false} BothAtZero(states: seq<System>, events: seq<Event>, k: nat, j: nat)
    requires IsRun(states, events) && k <= j < |states| && states[k].phase.Quiet?
    ensures AllQuiet(states[j])
    decreases j
  {
    if k == j {
      RunSound(states, events, k);
    } else {
      BothAtZero(states, events, k, j - 1);
      QuietStays(states[j - 1], events[j - 1]);
    }
  }

  /** Steps that bring the drain forward. */
  predicate Drains(e: Event) {
    match e
    case StartWorker | StartMonitor(_) | MonitorStep(_) | Enter(_) | CloseGate | Timeout => false
    case _ => true
  }

  function PhaseLeft(p: Phase): nat {
    match p
    case Running => 8 case GateClosed => 7 case Cancelled => 6 case AwaitMonitors => 5 case AwaitIngress => 4
    case Quiet => 3 case AwaitWorker => 2 case Drained => 1 case _ => 0
  }

  function WorkerLeft(w: Worker): nat {
    match w
    case Delivering(_, pending) => 2 + |pending|
    case Waiting => 1
    case _ => 0
  }

  function WorkLeft(s: System): nat {
    9 * |s.entered| + 2 * |s.recording| + |s.leaving| + |s.monitors| + 6 * |s.queue| +
    WorkerLeft(s.worker) + PhaseLeft(s.phase)
  }

  ghost predicate Draining(s: System) {
    !s.phase.Running? && !s.phase.Finished? && !s.phase.TimedOut?
  }

  lemma CallsShorten(s: System, e: Event)
    requires Counted(s) && Ordered(s) && Enabled(s, e) && (e.Send? || e.Record? || e.Leave?)
    ensures WorkLeft(Next(s, e)) < WorkLeft(s)
  {
    var s' := Next(s, e);
    if e.Send? {
      assert !s.closed;
      assert |s'.recording| == |s.recording| + 1 && |s'.entered| == |s.entered| - 1;
    } else if e.Record? {
      assert s'.recording.Keys == s.recording.Keys - {e.t};
      assert |s'.recording| == |s.recording| - 1 && |s'.leaving| == |s.leaving| + 1;
    }
  }

  lemma WorkerShortens(s: System, e: Event)
    requires Enabled(s, e) && (e.Take? || e.DestDone? || e.AlertDone? || e.WorkerExit?)
    ensures WorkLeft(Next(s, e)) < WorkLeft(s)
  {
    var s' := Next(s, e);
    if e.Take? {
      AnyDest(Pd);
    } else if e.DestDone? {
      assert |s'.worker.pending| == |s.worker.pending| - 1;
    }
  }

  lemma MonitorsShorten(s: System, e: Event)
    requires Enabled(s, e) && (e.MonitorStep? || e.MonitorExit?)
    ensures if e.MonitorExit? then WorkLeft(Next(s, e)) < WorkLeft(s) else WorkLeft(Next(s, e)) == WorkLeft(s)
  {
    if e.MonitorExit? {
      assert |s.monitors - {e.t}| == |s.monitors| - 1;
    }
  }

  lemma ShutdownShortens(s: System, e: Event)
    requires Ordered(s) && Enabled(s, e) && OfShutdown(e)
    ensures WorkLeft(Next(s, e)) < WorkLeft(s)
  {
    var s' := Next(s, e);
    assert s'.monitors == s.monitors && s'.entered == s.entered && s'.recording == s.recording && s'.leaving == s.leaving;
    assert s'.queue == s.queue && s'.worker == s.worker && PhaseLeft(s'.phase) < PhaseLeft(s.phase);
  }

  /** After the gate closed every draining step shortens the work left, and no other step adds any. */
  lemma DrainShortens(states: seq<System>, events: seq<Event>, k: nat, e: Event)
    requires IsRun(states, events) && k < |states| && Enabled(states[k], e)
    requires !states[k].phase.Running?
    ensures WorkLeft(Next(states[k], e)) <= WorkLeft(states[k])
    ensures Drains(e) ==> WorkLeft(Next(states[k], e)) < WorkLeft(states[k])
  {
    RunSound(states, events, k);
    var s := states[k];
    if e.Send? || e.Record? || e.Leave? {
      CallsShorten(s, e);
    } else if e.Take? || e.DestDone? || e.AlertDone? || e.WorkerExit? {
      WorkerShortens(s, e);
    } else if e.MonitorStep? || e.MonitorExit? {
      MonitorsShorten(s, e);
    } else {
      ShutdownShortens(s, e);
    }
  }

  /** And until the drain ends some draining step of the program is possible. */
  lemma DrainCanGoOn(states: seq<System>, events: seq<Event>, k: nat) returns (e: Event)
    requires IsProgramRun(states, events) && k < |states| && Draining(states[k])
    ensures Drains(e) && Enabled(states[k], e)
  {
    RunSound(states, events, k);
    WorkerStartsFirst(states, events, k);
    var s := states[k];
    if s.phase.AwaitWorker? && s.workerWG > 0 {
      e := WorkerCanGoOn(s);
    } else if s.phase.AwaitMonitors? && s.monitorsWG > 0 {
      var t :| t in s.monitors;
      if InCall(s, t) {
        e := CallsCanGoOn(s);
      } else {
        e := MonitorExit(t);
      }
    } else if s.phase.AwaitIngress? && s.ingressWG > 0 {
      e := CallsCanGoOn(s);
    } else {
      e := match s.phase
        case GateClosed => Cancel case Cancelled => BeginWait case AwaitMonitors => SeeMonitors
        case AwaitIngress => SeeIngress case Quiet => CloseChannel case AwaitWorker => SeeWorker case _ => Save;
    }
  }

  lemma WorkerCanGoOn(s: System) returns (e: Event)
    requires Sound(s) && s.workerWG > 0 && (s.queue != [] || s.closed || s.worker.Delivering?)
    ensures Drains(e) && Enabled(s, e)
  {
    if s.worker.Delivering? && s.worker.pending != {} {
      var d :| d in s.worker.pending;
      e := DestDone(d);
    } else {
      e := if s.worker.Delivering? then AlertDone else if s.queue != [] then Take else WorkerExit;
    }
  }

  lemma CallsCanGoOn(s: System) returns (e: Event)
    requires Sound(s) && s.ingressWG > 0 && !s.worker.NotStarted?
    ensures Drains(e) && Enabled(s, e)
  {
    if s.leaving != {} {
      var t :| t in s.leaving;
      e := Leave(t);
    } else if s.recording != map[] {
      var t :| t in s.recording;
      e := Record(t);
    } else {
      assert s.entered != {};
      var t :| t in s.entered;
      if |s.queue| < CAPACITY {
        e := Send(t);
      } else {
        e := WorkerCanGoOn(s);
      }
    }
  }

  lemma ProgramExtended(states: seq<System>, events: seq<Event>, s: System, e: Event)
    requires IsProgramRun(states, events) && Enabled(states[|events|], e) && s == Next(states[|events|], e)
    requires !e.StartMonitor? && !e.Enter?
    ensures IsProgramRun(states + [s], events + [e])
  {
    var n := |events|;
    var states', events' := states + [s], events + [e];
    assert forall i :: 0 <= i <= n ==> states'[i] == states[i];
    assert forall i :: 0 <= i < n ==> events'[i] == events[i];
  }

  lemma DrainGoesOn(states: seq<System>, events: seq<Event>) returns (e: Event)
    requires IsProgramRun(states, events) && Draining(states[|events|])
    ensures Drains(e) && Enabled(states[|events|], e)
    ensures IsProgramRun(states + [Next(states[|events|], e)], events + [e])
    ensures var s, s' := states[|events|], Next(states[|events|], e);
            WorkLeft(s') < WorkLeft(s) && (Draining(s') || s'.phase.Finished?)
  {
    e := DrainCanGoOn(states, events, |events|);
    DrainShortens(states, events, |events|, e);
    DrainStaysOn(states[|events|], e);
    ProgramExtended(states, events, Next(states[|events|], e), e);
  }

  lemma DrainStaysOn(s: System, e: Event)
    requires Draining(s) && Enabled(s, e) && Drains(e)
    ensures Draining(Next(s, e)) || Next(s, e).phase.Finished?
  {
  }

  /**
   So shutdown can always finish: every run of the program that is draining goes on by draining
   steps, at most as many as there was work left, to the checkpoint.
   */
  lemma {:induction false} DrainFinishes(states: seq<System>, events: seq<Event>)
    returns (states': seq<System>, events': seq<Event>)
    requires IsProgramRun(states, events) && Draining(states[|events|])
    ensures IsProgramRun(states', events') && states <= states' && events <= events'
    ensures forall i :: |events| <= i < |events'| ==> Drains(events'[i])
    ensures states'[|events'|].phase.Finished?
    ensures |events'| <= |events| + WorkLeft(states[|events|])
    decreases WorkLeft(states[|events|])
  {
    var e := DrainGoesOn(states, events);
    states', events' := states + [Next(states[|events|], e)], events + [e];
    if Draining(states'[|events'|]) {
      states', events' := DrainFinishes(states', events');
    }
  }

  ghost predicate Grown(s: System, s': System) {
    s.log <= s'.log && s.sent <= s'.sent
  }

  lemma StepGrows(s: System, e: Event)
    requires Enabled(s, e)
    ensures Grown(s, Next(s, e))
  {
  }

  lemma GrowsOneStep(states: seq<System>, events: seq<Event>, k: nat)
    requires IsRun(states, events) && k < |events|
    ensures Grown(states[k], states[k + 1])
  {
    StepGrows(states[k], events[k]);
  }

  lemma {:induction false} LogGrows(states: seq<System>, events: seq<Event>, i: nat, k: nat)
    requires IsRun(states, events) && i <= k < |states|
    ensures Grown(states[i], states[k])
    decreases k
  {
    if i < k {
      LogGrows(states, events, i, k - 1);
      GrowsOneStep(states, events, k - 1);
    }
  }

  /** One more step of the program. */
  lemma Went(states: seq<System>, events: seq<Event>, e: Event, s: System) returns (states': seq<System>, events': seq<Event>)
    requires IsProgramRun(states, events) && Enabled(states[|events|], e) && s == Next(states[|events|], e)
    requires e.StartMonitor? ==> !states[|events|].worker.NotStarted?
    requires e.Enter? ==> e.t in states[|events|].monitors
    ensures IsProgramRun(states', events') && |states'| == |states| + 1 && states'[|events'|] == s
  {
    var n := |events|;
    states', events' := states + [s], events + [e];
    assert forall i :: 0 <= i <= n ==> states'[i] == states[i];
    assert forall i :: 0 <= i < n ==> events'[i] == events[i];
  }

  /** A monitor has written once. */
  lemma MonitorWrote() returns (states: seq<System>, events: seq<Event>)
    ensures IsProgramRun(states, events)
    ensures states[|events|] == INITIAL.(worker := Waiting, workerWG := 1, monitors := {0}, monitorsWG := 1, log := [MonitorWrite(0)])
  {
    var s := Next(INITIAL, StartWorker);
    states, events := Went([INITIAL], [], StartWorker, s);
    states, events := Went(states, events, StartMonitor(0), Next(s, StartMonitor(0)));
    s := Next(s, StartMonitor(0));
    states, events := Went(states, events, MonitorStep(0), Next(s, MonitorStep(0)));
  }

  lemma AlertSent() returns (states: seq<System>, events: seq<Event>)
    ensures IsProgramRun(states, events)
    ensures var s := states[|events|];
            s.log == [MonitorWrite(0)] && s.sent == 1 && Draining(s)
  {
    states, events := MonitorWrote();
    var s := Next(states[|events|], Enter(0));
    states, events := Went(states, events, Enter(0), s);
    states, events := Went(states, events, Send(0), Next(s, Send(0)));
    s := Next(s, Send(0));
    states, events := Went(states, events, CloseGate, Next(s, CloseGate));
  }

  /** The program does get there: a monitor's write and its alert, delivered everywhere, in the checkpoint. */
  lemma AlertCanBeSaved() returns (states: seq<System>, events: seq<Event>)
    ensures IsProgramRun(states, events) && states[|events|].saved.Some? && states[|events|].sent >= 1
    ensures var saved := states[|events|].saved.value;
            MonitorWrite(0) in saved && DashboardWrite(0) in saved && forall d: Dest :: DeliveryDone(0, d) in saved
  {
    states, events := AlertSent();
    var n := |events|;
    var s := states[n];
    states, events := DrainFinishes(states, events);
    assert states[n] == s;
    LogGrows(states, events, n, |events|);
    SavedAlert(states, events, MonitorWrite(0));
  }

  lemma SavedAlert(states: seq<System>, events: seq<Event>, w: Write)
    requires IsProgramRun(states, events) && states[|events|].phase.Finished? && states[|events|].sent >= 1
    requires [w] <= states[|events|].log
    ensures states[|events|].saved.Some?
    ensures var saved := states[|events|].saved.value;
            w in saved && DashboardWrite(0) in saved && forall d: Dest :: DeliveryDone(0, d) in saved
  {
    RunSound(states, events, |events|);
    CheckpointHoldsAllAlerts(states, events, |events|);
    assert states[|events|].log[0] == w;
  }
}
