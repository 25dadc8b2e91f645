/**
 What a checkpoint reports: exactly the first operation that failed, or success when every one of
 its operations was carried out and succeeded.
 */
module CheckpointReports {
  import opened Basics
  import opened StateDocument
  import opened DiskModel
  import opened Checkpoint

  /** The steps that leave the checkpoint under way alone, or bring it forward. */
  predicate Uninterrupted(e: Event) {
    e.ReadCurrent? || e.Operation? || e.PrimaryChange?
  }

  predicate Succeeded(e: Event) {
    match e
    case ReadCurrent(ok) => ok
    case Operation(outcome, _, _) => outcome == Success
    case _ => true
  }

  /** The step at `s` fails, in an operation whose outcome counts: the late close comes after a failure. */
  function FaultOf(s: System, e: Event): Option<Fault> {
    if Succeeded(e) then None
    else if e.ReadCurrent? then Some(ReadFailed)
    else if s.pc.Installing? && s.pc.stage != LateClose then Some(InstallFailed(s.pc.target, s.pc.stage))
    else None
  }

  /** The first failure among the steps from `b` up to `k`. */
  function FirstFault(states: seq<System>, events: seq<Event>, b: nat, k: nat): Option<Fault>
    requires b <= k <= |events| <= |states|
    decreases k
  {
    if b == k then None
    else
      var earlier := FirstFault(states, events, b, k - 1);
      if earlier.Some? then earlier else FaultOf(states[k - 1], events[k - 1])
  }

  /** The checkpoint that began with step `b` is under way or over at `k`. */
  ghost predicate Continues(codec: Codec, states: seq<System>, events: seq<Event>, b: nat, k: nat) {
    && IsRun(codec, states, events) && b < k < |states| && events[b].Begin?
    && (forall j :: b < j < k ==> Uninterrupted(events[j]))
  }

  /** The writer's state agrees with the first failure so far. */
  ghost predicate Agrees(s: System, fault: Option<Fault>) {
    match s.pc
    case Idle => s.result == Some(fault)
    case Reading(_) => fault == None
    case Installing(_, _, _, stage, _, _, f) =>
      f == fault && (stage.LateClose? ==> f.Some?) && (f.Some? ==> stage.LateClose? || stage.Remove?)
  }

  lemma OperationAgrees(codec: Codec, s: System, outcome: Outcome, id: nat, left: Bytes, fault: Option<Fault>)
    requires s.pc.Installing? && OperationAllowed(s, outcome, id) && Agrees(s, fault)
    ensures var e := Operation(outcome, id, left);
            Agrees(AfterOperation(codec, s, outcome, id, left), if fault.Some? then fault else FaultOf(s, e))
  {
  }

  /**
   A checkpoint reports exactly its first failure: when it is over its result is that failure, or
   success if there was none.
   */
  lemma {:induction false} ReportIsFirstFault(codec: Codec, states: seq<System>, events: seq<Event>, b: nat, k: nat)
    requires Continues(codec, states, events, b, k)
    ensures Agrees(states[k], FirstFault(states, events, b, k))
    decreases k
  {
    assert Step(codec, states[k - 1], events[k - 1], states[k]);
    if b + 1 < k {
      ReportIsFirstFault(codec, states, events, b, k - 1);
      var s, e := states[k - 1], events[k - 1];
      if e.Operation? {
        OperationAgrees(codec, s, e.outcome, e.id, e.left, FirstFault(states, events, b, k - 1));
      }
    }
  }

  /** While no failure has been found, every step has succeeded. */
  lemma {:induction false} NoFaultMeansSuccess(
      codec: Codec, states: seq<System>, events: seq<Event>, b: nat, k: nat, m: nat)
    requires Continues(codec, states, events, b, k) && FirstFault(states, events, b, k) == None && b < m < k
    ensures Succeeded(events[m])
    decreases k
  {
    if m < k - 1 {
      NoFaultMeansSuccess(codec, states, events, b, k - 1, m);
    } else {
      ReportIsFirstFault(codec, states, events, b, k - 1);
      assert Step(codec, states[m], events[m], states[m + 1]);
    }
  }

  /** A checkpoint reports success exactly when every one of its steps succeeded. */
  lemma SuccessMeansAllSucceeded(codec: Codec, states: seq<System>, events: seq<Event>, b: nat, k: nat)
    requires Continues(codec, states, events, b, k) && states[k].pc.Idle?
    ensures states[k].result == Some(None) <==> forall m :: b < m < k ==> Succeeded(events[m])
  {
    ReportIsFirstFault(codec, states, events, b, k);
    if states[k].result == Some(None) {
      forall m | b < m < k
        ensures Succeeded(events[m])
      {
        NoFaultMeansSuccess(codec, states, events, b, k, m);
      }
    } else if forall m :: b < m < k ==> Succeeded(events[m]) {
      NoFaultWhileSucceeding(states, events, b, k);
    }
  }

  lemma FailureIsFault(codec: Codec, s: System, e: Event, s': System)
    requires Step(codec, s, e, s') && Agrees(s, None) && !Succeeded(e)
    ensures if e.ReadCurrent? then FaultOf(s, e) == Some(ReadFailed)
            else s.pc.Installing? && FaultOf(s, e) == Some(InstallFailed(s.pc.target, s.pc.stage))
  {
  }

  lemma FirstFaultFound(codec: Codec, states: seq<System>, events: seq<Event>, b: nat, m: nat, k: nat)
    requires Continues(codec, states, events, b, k) && b < m < k
    requires !Succeeded(events[m]) && forall j :: b < j < m ==> Succeeded(events[j])
    ensures FirstFault(states, events, b, k) == FaultOf(states[m], events[m])
    ensures Step(codec, states[m], events[m], states[m + 1]) && Agrees(states[m], None)
  {
    NoFaultWhileSucceeding(states, events, b, m);
    ReportIsFirstFault(codec, states, events, b, m);
    FailureIsFault(codec, states[m], events[m], states[m + 1]);
    assert FirstFault(states, events, b, m + 1) == FaultOf(states[m], events[m]);
    FirstFaultStays(states, events, b, m + 1, k);
  }

  /** The first step that fails is what it reports: its stage and its file, or the reading of the primary. */
  lemma FirstFailureReported(codec: Codec, states: seq<System>, events: seq<Event>, b: nat, m: nat, k: nat)
    requires Continues(codec, states, events, b, k) && states[k].pc.Idle? && b < m < k
    requires !Succeeded(events[m]) && forall j :: b < j < m ==> Succeeded(events[j])
    ensures var s := states[m];
            if events[m].ReadCurrent? then states[k].result == Some(Some(ReadFailed))
            else s.pc.Installing? && states[k].result == Some(Some(InstallFailed(s.pc.target, s.pc.stage)))
  {
    FirstFaultFound(codec, states, events, b, m, k);
    FailureIsFault(codec, states[m], events[m], states[m + 1]);
    ReportIsFirstFault(codec, states, events, b, k);
  }

  lemma {:induction false} NoFaultWhileSucceeding(states: seq<System>, events: seq<Event>, b: nat, k: nat)
    requires b < k <= |events| <= |states| && events[b].Begin?
    requires forall j :: b < j < k ==> Succeeded(events[j])
    ensures FirstFault(states, events, b, k) == None
    decreases k
  {
    if b + 1 < k {
      NoFaultWhileSucceeding(states, events, b, k - 1);
    } else {
      assert FirstFault(states, events, b, b) == None;
    }
  }

  lemma {:induction false} FirstFaultStays(states: seq<System>, events: seq<Event>, b: nat, i: nat, k: nat)
    requires b <= i <= k <= |events| <= |states| && FirstFault(states, events, b, i).Some?
    ensures FirstFault(states, events, b, k) == FirstFault(states, events, b, i)
    decreases k
  {
    if i < k {
      FirstFaultStays(states, events, b, i, k - 1);
    }
  }

  /** The operations of one replacement, in order. */
  function Number(stage: Stage): int {
    match stage
    case Create => 0 case Chmod => 1 case Write => 2 case Flush => 3 case Sync => 4
    case Close => 5 case Rename => 6 case SyncDir => 7 case Remove => 8 case LateClose => -1
  }

  /** No step from outside comes between. */
  ghost predicate Alone(codec: Codec, states: seq<System>, events: seq<Event>, b: nat, k: nat) {
    Continues(codec, states, events, b, k) && forall j :: b < j < k ==> !events[j].PrimaryChange?
  }

  /** The primary was decodable when the checkpoint read it, and is copied to the backup first. */
  ghost predicate Copies(codec: Codec, states: seq<System>, b: nat)
    requires b + 1 < |states|
  {
    Readable(codec, states[b + 1].disk.Read(Primary))
  }

  /** After `n` operations without a failure the writer is at the next one, of the backup or of the primary. */
  ghost predicate InOrder(s: System, copies: bool, n: nat) {
    && s.pc.Installing? && Number(s.pc.stage) >= 0
    && (s.pc.target == Primary || (s.pc.target == Backup && copies))
    && n == Number(s.pc.stage) + (if copies && s.pc.target == Primary then 9 else 0)
  }

  lemma NextInOrder(codec: Codec, s: System, id: nat, left: Bytes, copies: bool, n: nat)
    requires InOrder(s, copies, n) && s.pc.fault == None && OperationAllowed(s, Success, id)
    ensures var s' := AfterOperation(codec, s, Success, id, left);
            if s'.pc.Idle? then n == (if copies then 17 else 8) else InOrder(s', copies, n + 1)
  {
  }

  /** Where the writer is `n + 1` steps after the checkpoint began, if none failed. */
  ghost predicate OnCourse(s: System, copies: bool, n: nat) {
    if n == 0 then s.pc.Reading?
    else if s.pc.Idle? then n == if copies then 19 else 10
    else InOrder(s, copies, n - 1)
  }

  lemma StepInOrder(codec: Codec, s: System, e: Event, s': System, copies: bool, n: nat)
    requires Step(codec, s, e, s') && Succeeded(e) && (e.ReadCurrent? || e.Operation?) && OnCourse(s, copies, n)
    requires (s.pc.Installing? ==> s.pc.fault == None) && (n == 0 ==> copies == Readable(codec, s.disk.Read(Primary)))
    ensures OnCourse(s', copies, n + 1)
  {
    if e.Operation? {
      NextInOrder(codec, s, e.id, e.left, copies, n - 1);
    }
  }

  lemma UpToBefore(codec: Codec, states: seq<System>, events: seq<Event>, b: nat, k: nat)
    requires Alone(codec, states, events, b, k) && FirstFault(states, events, b, k) == None && b + 1 < k
    ensures Alone(codec, states, events, b, k - 1) && FirstFault(states, events, b, k - 1) == None
  {
  }

  lemma CourseContinues(codec: Codec, states: seq<System>, events: seq<Event>, b: nat, k: nat, copies: bool)
    requires Alone(codec, states, events, b, k) && FirstFault(states, events, b, k) == None && b + 1 < k
    requires copies == Copies(codec, states, b) && OnCourse(states[k - 1], copies, k - b - 2)
    ensures OnCourse(states[k], copies, k - b - 1)
  {
    ReportIsFirstFault(codec, states, events, b, k - 1);
    NoFaultMeansSuccess(codec, states, events, b, k, k - 1);
    StepInOrder(codec, states[k - 1], events[k - 1], states[k], copies, k - b - 2);
  }

  /**
   The operations come in their order and none is left out: read the primary, then the nine
   operations on the backup if it is copied, then the nine on the primary.
   */
  lemma {:induction false} OperationsInOrder(codec: Codec, states: seq<System>, events: seq<Event>, b: nat, k: nat)
    requires Alone(codec, states, events, b, k) && FirstFault(states, events, b, k) == None
    ensures OnCourse(states[k], Copies(codec, states, b), k - b - 1)
    decreases k
  {
    var copies := Copies(codec, states, b);
    if b + 1 == k {
      BeginsByReading(codec, states[b], events[b], states[k], copies);
    } else {
      UpToBefore(codec, states, events, b, k);
      OperationsInOrder(codec, states, events, b, k - 1);
      CourseContinues(codec, states, events, b, k, copies);
    }
  }

  lemma BeginsByReading(codec: Codec, s: System, e: Event, s': System, copies: bool)
    requires Step(codec, s, e, s') && e.Begin?
    ensures OnCourse(s', copies, 0)
  {
  }

  /** The directory holds at most the names it held, the state files and the temporary file under way. */
  ghost predicate OnlyTemp(s: System, names: set<Name>) {
    match s.pc
    case Idle => true
    case Reading(_) => s.disk.dir.Keys <= names
    case Installing(_, _, _, stage, tmp, _, _) => s.disk.dir.Keys <= if stage.Create? then names else names + {Temp(tmp)}
  }

  /** The step leaves no temporary file behind: the removal took effect, or none was made. */
  predicate Cleans(s: System, e: Event) {
    e.Operation? && s.pc.Installing? && (s.pc.stage.Create? || (s.pc.stage.Remove? && !e.outcome.Failure?))
  }

  lemma OperationCleans(codec: Codec, s: System, outcome: Outcome, id: nat, left: Bytes, names: set<Name>)
    requires s.pc.Installing? && OperationAllowed(s, outcome, id) && OnlyTemp(s, names)
    requires Primary in names && Backup in names && (s.pc.target == Primary || s.pc.target == Backup)
    ensures var s' := AfterOperation(codec, s, outcome, id, left);
            && OnlyTemp(s', names) && (s'.pc.Installing? ==> s'.pc.target == Primary || s'.pc.target == Backup)
            && (s'.pc.Idle? && Cleans(s, Operation(outcome, id, left)) ==> s'.disk.dir.Keys <= names)
  {
  }

  /** A checkpoint ends without a new name but the two state files, unless the removal itself failed. */
  lemma {:induction false} NoTempLeft(codec: Codec, states: seq<System>, events: seq<Event>, b: nat, k: nat)
    requires Alone(codec, states, events, b, k)
    ensures OnlyTemp(states[k], states[b].disk.dir.Keys + {Primary, Backup})
    ensures states[k].pc.Installing? ==> states[k].pc.target == Primary || states[k].pc.target == Backup
    ensures states[k].pc.Idle? && Cleans(states[k - 1], events[k - 1]) ==>
              states[k].disk.dir.Keys <= states[b].disk.dir.Keys + {Primary, Backup}
    decreases k
  {
    var s, e := states[k - 1], events[k - 1];
    assert Step(codec, s, e, states[k]);
    if b + 1 < k {
      NoTempLeft(codec, states, events, b, k - 1);
      if e.Operation? {
        OperationCleans(codec, s, e.outcome, e.id, e.left, states[b].disk.dir.Keys + {Primary, Backup});
      }
    }
  }
}
