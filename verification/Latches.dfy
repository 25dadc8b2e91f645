/**
 The alarm latches of one chain: stalled chain, missed percentage, consecutive misses and no
 usable nodes. Each turns a condition that comes and goes into triggers and resolutions.
 */
module Latches {
  import opened Basics

  datatype AlertConfig = AlertConfig(
    stalledEnabled: bool, stalledMinutes: int,
    percentEnabled: bool, percentWindow: int,
    consecutiveEnabled: bool, consecutiveMissed: int,
    alertIfNoServers: bool, nodeDownMin: int)

  datatype Alarm = Stalled | Percentage | Consecutive | NoNodes

  /** An alert sent for an alarm. */
  datatype Emission = Emission(alarm: Alarm, resolved: bool)

  /** Missed blocks and slashing window of the validator, when known. */
  datatype Slashing = Slashing(missed: int, window: int)

  datatype Watch = Watch(
    connected: bool,
    lastBlockTime: Time,
    lastBlockAlarm: bool,
    resolutionPending: bool,
    percentageAlarm: bool,
    missedAlarm: bool,
    noNodes: bool,
    noNodesSec: int)

  const FIRST := Watch(false, ZERO_TIME, false, false, false, false, false, 0)

  datatype Event =
    | FinalBlock(now: Time)
    | StartupPoll(seen: bool)
    | MonikerKnown
    | NodesPoll(seen: bool)
    | StalledCheck(now: Time)
    | ConsecutiveCheck(misses: int)
    | PercentageCheck(info: Option<Slashing>)

  function MissedPercent(info: Slashing): real
    requires info.window != 0
  {
    100.0 * info.missed as real / info.window as real
  }

  /** One second of waiting for a moniker. */
  function StartupStep(cfg: AlertConfig, w: Watch, seen: bool): (Watch, Option<Emission>) {
    var w' := w.(noNodesSec := w.noNodesSec + 1);
    if cfg.alertIfNoServers && !w.noNodes && seen && w.noNodesSec >= 60 * cfg.nodeDownMin
    then (w'.(noNodes := true), Some(Emission(NoNodes, false))) else (w', None)
  }

  function NodesStep(cfg: AlertConfig, w: Watch, seen: bool): (Watch, Option<Emission>) {
    if cfg.alertIfNoServers && !w.noNodes && seen then
      if w.noNodesSec + 2 <= 30 * cfg.nodeDownMin then (w.(noNodesSec := w.noNodesSec + 2), None)
      else (w.(noNodesSec := 0, noNodes := true), Some(Emission(NoNodes, false)))
    else if cfg.alertIfNoServers && w.noNodes && !seen then
      (w.(noNodes := false), Some(Emission(NoNodes, true)))
    else (w.(noNodesSec := 0), None)
  }

  function StalledStep(cfg: AlertConfig, w: Watch, now: Time): (Watch, Option<Emission>) {
    if cfg.stalledEnabled && !w.lastBlockAlarm && w.lastBlockTime != ZERO_TIME &&
       w.lastBlockTime < now - cfg.stalledMinutes * MINUTE
    then (w.(lastBlockAlarm := true), Some(Emission(Stalled, false)))
    else if cfg.stalledEnabled && w.lastBlockAlarm && w.resolutionPending
    then (w.(lastBlockAlarm := false, resolutionPending := false), Some(Emission(Stalled, true)))
    else (w, None)
  }

  function ConsecutiveStep(cfg: AlertConfig, w: Watch, misses: int): (Watch, Option<Emission>) {
    if !w.missedAlarm && cfg.consecutiveEnabled && misses >= cfg.consecutiveMissed
    then (w.(missedAlarm := true), Some(Emission(Consecutive, false)))
    else if w.missedAlarm && misses < cfg.consecutiveMissed
    then (w.(missedAlarm := false), Some(Emission(Consecutive, true)))
    else (w, None)
  }

  function PercentageStep(cfg: AlertConfig, w: Watch, info: Option<Slashing>): (Watch, Option<Emission>) {
    if !cfg.percentEnabled || info.None? || info.value.window == 0 then (w, None)
    else if !w.percentageAlarm && MissedPercent(info.value) > cfg.percentWindow as real
    then (w.(percentageAlarm := true), Some(Emission(Percentage, false)))
    else if w.percentageAlarm && MissedPercent(info.value) < cfg.percentWindow as real
    then (w.(percentageAlarm := false), Some(Emission(Percentage, true)))
    else (w, None)
  }

  function Next(cfg: AlertConfig, w: Watch, e: Event): (Watch, Option<Emission>) {
    match e
    case FinalBlock(now) =>
      (w.(lastBlockTime := now, resolutionPending := w.resolutionPending || w.lastBlockAlarm), None)
    case StartupPoll(seen) => StartupStep(cfg, w, seen)
    case MonikerKnown => (w.(connected := true, noNodesSec := 0), None)
    case NodesPoll(seen) => NodesStep(cfg, w, seen)
    case StalledCheck(now) => StalledStep(cfg, w, now)
    case ConsecutiveCheck(misses) => ConsecutiveStep(cfg, w, misses)
    case PercentageCheck(info) => PercentageStep(cfg, w, info)
  }

  /** The watch loop waits for a moniker first; final blocks come whenever they come. */
  predicate Enabled(w: Watch, e: Event) {
    match e
    case FinalBlock(_) => true
    case StartupPoll(_) | MonikerKnown => !w.connected
    case _ => w.connected
  }

  predicate Latched(w: Watch, alarm: Alarm) {
    match alarm
    case Stalled => w.lastBlockAlarm
    case Percentage => w.percentageAlarm
    case Consecutive => w.missedAlarm
    case NoNodes => w.noNodes
  }

  function After(cfg: AlertConfig, events: seq<Event>): Watch {
    if events == [] then FIRST else Next(cfg, After(cfg, events[..|events| - 1]), events[|events| - 1]).0
  }

  /** What the last event sent. */
  function Sent(cfg: AlertConfig, events: seq<Event>): Option<Emission>
    requires events != []
  {
    Next(cfg, After(cfg, events[..|events| - 1]), events[|events| - 1]).1
  }

  /** Whether each alert sent for the alarm was a resolution, in order. */
  function Emitted(cfg: AlertConfig, events: seq<Event>, alarm: Alarm): seq<bool> {
    if events == [] then []
    else
      var before := Emitted(cfg, events[..|events| - 1], alarm);
      var sent := Sent(cfg, events);
      if sent.Some? && sent.value.alarm == alarm then before + [sent.value.resolved] else before
  }

  predicate Possible(cfg: AlertConfig, events: seq<Event>) {
    events != [] ==>
      && Possible(cfg, events[..|events| - 1])
      && Enabled(After(cfg, events[..|events| - 1]), events[|events| - 1])
  }

  /** A trigger sets its latch, a resolution clears it, and nothing else moves it. */
  ghost predicate LatchMoves(w: Watch, step: (Watch, Option<Emission>), alarm: Alarm) {
    if step.1.Some? && step.1.value.alarm == alarm
    then Latched(w, alarm) == step.1.value.resolved && Latched(step.0, alarm) == !step.1.value.resolved
    else Latched(step.0, alarm) == Latched(w, alarm)
  }

  lemma NodesMoveLatch(cfg: AlertConfig, w: Watch, seen: bool, alarm: Alarm)
    ensures LatchMoves(w, StartupStep(cfg, w, seen), alarm) && LatchMoves(w, NodesStep(cfg, w, seen), alarm)
  {
  }

  lemma StalledMovesLatch(cfg: AlertConfig, w: Watch, now: Time, alarm: Alarm)
    ensures LatchMoves(w, StalledStep(cfg, w, now), alarm)
  {
  }

  lemma ConsecutiveMovesLatch(cfg: AlertConfig, w: Watch, misses: int, alarm: Alarm)
    ensures LatchMoves(w, ConsecutiveStep(cfg, w, misses), alarm)
  {
  }

  lemma PercentageMovesLatch(cfg: AlertConfig, w: Watch, info: Option<Slashing>, alarm: Alarm)
    ensures LatchMoves(w, PercentageStep(cfg, w, info), alarm)
  {
  }

  lemma StepLatch(cfg: AlertConfig, w: Watch, e: Event, alarm: Alarm)
    ensures LatchMoves(w, Next(cfg, w, e), alarm)
  {
    match e
    case FinalBlock(_) =>
    case StartupPoll(seen) => NodesMoveLatch(cfg, w, seen, alarm);
    case MonikerKnown =>
    case NodesPoll(seen) => NodesMoveLatch(cfg, w, seen, alarm);
    case StalledCheck(now) => StalledMovesLatch(cfg, w, now, alarm);
    case ConsecutiveCheck(misses) => ConsecutiveMovesLatch(cfg, w, misses, alarm);
    case PercentageCheck(info) => PercentageMovesLatch(cfg, w, info, alarm);
  }

  lemma AlternatesAppended(kinds: seq<bool>, kind: bool)
    requires Alternates(false, kinds) && kind == Turn(false, kinds)
    ensures Alternates(false, kinds + [kind]) && Turn(false, kinds + [kind]) == !kind
  {
  }

  lemma StepStalled(cfg: AlertConfig, w: Watch, e: Event)
    requires w.resolutionPending ==> w.lastBlockAlarm
    ensures var (w', sent) := Next(cfg, w, e);
            && (w'.resolutionPending ==> w'.lastBlockAlarm)
            && (!e.FinalBlock? && w.lastBlockAlarm && !w.resolutionPending ==> w'.lastBlockAlarm && !w'.resolutionPending)
            && (sent == Some(Emission(Stalled, false)) ==> w'.lastBlockAlarm && !w'.resolutionPending)
            && (sent == Some(Emission(Stalled, true)) ==> w.resolutionPending)
  {
    match e case FinalBlock(_) => case StartupPoll(_) => case MonikerKnown => case NodesPoll(_) =>
    case StalledCheck(_) => case ConsecutiveCheck(_) => case PercentageCheck(_) =>
  }

  /** Every alarm's alerts alternate, beginning with a trigger, and the latch says which came last. */
  lemma {:induction false} AlertsAlternate(cfg: AlertConfig, events: seq<Event>, alarm: Alarm)
    ensures Alternates(false, Emitted(cfg, events, alarm))
    ensures Latched(After(cfg, events), alarm) == Turn(false, Emitted(cfg, events, alarm))
  {
    if events != [] {
      var before := events[..|events| - 1];
      AlertsAlternate(cfg, before, alarm);
      StepLatch(cfg, After(cfg, before), events[|events| - 1], alarm);
      var sent := Sent(cfg, events);
      if sent.Some? && sent.value.alarm == alarm {
        AlternatesAppended(Emitted(cfg, before, alarm), sent.value.resolved);
      }
    }
  }

  /** A pending resolution belongs to a stalled alarm that is on. */
  lemma {:induction false} PendingMeansStalled(cfg: AlertConfig, events: seq<Event>)
    ensures After(cfg, events).resolutionPending ==> After(cfg, events).lastBlockAlarm
  {
    if events != [] {
      PendingMeansStalled(cfg, events[..|events| - 1]);
      StepStalled(cfg, After(cfg, events[..|events| - 1]), events[|events| - 1]);
    }
  }

  /** The stalled alarm went on at event i and no final block came since, up to event j. */
  lemma {:induction false} StalledStaysOn(cfg: AlertConfig, events: seq<Event>, i: nat, j: nat)
    requires i < j <= |events| && Sent(cfg, events[..i + 1]) == Some(Emission(Stalled, false))
    requires forall k :: i < k < j ==> !events[k].FinalBlock?
    ensures After(cfg, events[..j]).lastBlockAlarm && !After(cfg, events[..j]).resolutionPending
    decreases j
  {
    assert events[..j][..j - 1] == events[..j - 1] && events[..j][j - 1] == events[j - 1];
    PendingMeansStalled(cfg, events[..j - 1]);
    StepStalled(cfg, After(cfg, events[..j - 1]), events[j - 1]);
    if i + 1 < j {
      StalledStaysOn(cfg, events, i, j - 1);
    }
  }

  /** A stalled chain is only reported resolved after a final block has been recorded since the trigger. */
  lemma ResolutionNeedsBlock(cfg: AlertConfig, events: seq<Event>, i: nat, j: nat)
    requires i < j < |events|
    requires Sent(cfg, events[..i + 1]) == Some(Emission(Stalled, false))
    requires Sent(cfg, events[..j + 1]) == Some(Emission(Stalled, true))
    ensures exists k :: i < k < j && events[k].FinalBlock?
  {
    assert events[..j + 1][..j] == events[..j];
    PendingMeansStalled(cfg, events[..j]);
    StepStalled(cfg, After(cfg, events[..j]), events[j]);
    if forall k :: i < k < j ==> !events[k].FinalBlock? {
      StalledStaysOn(cfg, events, i, j);
    }
  }

  /** When the last final block was recorded; the zero time before the first. */
  function LastFinal(events: seq<Event>): Time {
    if events == [] then ZERO_TIME
    else if events[|events| - 1].FinalBlock? then events[|events| - 1].now
    else LastFinal(events[..|events| - 1])
  }

  /** A final block was recorded since the last stalled trigger. */
  predicate FinalSinceStall(cfg: AlertConfig, events: seq<Event>) {
    if events == [] then false
    else if events[|events| - 1].FinalBlock? then true
    else if Sent(cfg, events) == Some(Emission(Stalled, false)) then false
    else FinalSinceStall(cfg, events[..|events| - 1])
  }

  /** The alarm has an unresolved trigger. */
  predicate Open(cfg: AlertConfig, events: seq<Event>, alarm: Alarm) {
    Turn(false, Emitted(cfg, events, alarm))
  }

  lemma StepBlockTime(cfg: AlertConfig, w: Watch, e: Event)
    ensures var (w', sent) := Next(cfg, w, e);
            && w'.lastBlockTime == (if e.FinalBlock? then e.now else w.lastBlockTime)
            && (e.FinalBlock? ==> w'.resolutionPending == (w.resolutionPending || w.lastBlockAlarm))
            && (!e.FinalBlock? && sent != Some(Emission(Stalled, true)) ==> w'.resolutionPending == w.resolutionPending)
            && (sent == Some(Emission(Stalled, true)) ==> !w'.resolutionPending)
  {
    match e case FinalBlock(_) => case StartupPoll(_) => case MonikerKnown => case NodesPoll(_) =>
    case StalledCheck(_) => case ConsecutiveCheck(_) => case PercentageCheck(_) =>
  }

  lemma {:induction false} StalledHistory(cfg: AlertConfig, events: seq<Event>)
    ensures var w := After(cfg, events);
            && w.lastBlockTime == LastFinal(events)
            && w.resolutionPending == (w.lastBlockAlarm && FinalSinceStall(cfg, events))
  {
    if events != [] {
      var before, last := events[..|events| - 1], events[|events| - 1];
      StalledHistory(cfg, before);
      PendingMeansStalled(cfg, before);
      StepBlockTime(cfg, After(cfg, before), last);
      StepStalled(cfg, After(cfg, before), last);
      StepLatch(cfg, After(cfg, before), last, Stalled);
    }
  }

  /**
   A check reports a stall exactly when none is open and the last final block is older than the
   limit, and its end exactly when one is open and a final block was recorded since.
   */
  lemma StalledExactly(cfg: AlertConfig, events: seq<Event>, now: Time)
    requires cfg.stalledEnabled
    ensures var sent := Next(cfg, After(cfg, events), StalledCheck(now)).1;
            && (sent == Some(Emission(Stalled, false)) <==>
                !Open(cfg, events, Stalled) && LastFinal(events) != ZERO_TIME &&
                now - LastFinal(events) > cfg.stalledMinutes * 60_000_000_000)
            && (sent == Some(Emission(Stalled, true)) <==> Open(cfg, events, Stalled) && FinalSinceStall(cfg, events))
  {
    StalledHistory(cfg, events);
    AlertsAlternate(cfg, events, Stalled);
  }

  /** A check moves the percentage alarm only when enabled and with a window: open above the threshold, closed below. */
  lemma PercentageExactly(cfg: AlertConfig, events: seq<Event>, info: Option<Slashing>)
    ensures var after := events + [PercentageCheck(info)];
            if !cfg.percentEnabled || info == None || info.value.window == 0 then
              Sent(cfg, after) == None && Open(cfg, after, Percentage) == Open(cfg, events, Percentage)
            else
              var percent, limit := 100.0 * info.value.missed as real / info.value.window as real, cfg.percentWindow as real;
              Open(cfg, after, Percentage) <==> percent > limit || (percent == limit && Open(cfg, events, Percentage))
  {
    var after := events + [PercentageCheck(info)];
    assert after[..|after| - 1] == events;
    AlertsAlternate(cfg, events, Percentage);
    AlertsAlternate(cfg, after, Percentage);
  }

  /** The percentage alarm opens above its threshold and closes below it; at the threshold it stays as it is. */
  lemma PercentageHysteresis(cfg: AlertConfig, events: seq<Event>, info: Slashing)
    requires cfg.percentEnabled && info.window > 0
    ensures var after := events + [PercentageCheck(Some(info))];
            && (100 * info.missed > cfg.percentWindow * info.window ==> Open(cfg, after, Percentage))
            && (100 * info.missed < cfg.percentWindow * info.window ==> !Open(cfg, after, Percentage))
            && (100 * info.missed == cfg.percentWindow * info.window ==>
                Open(cfg, after, Percentage) == Open(cfg, events, Percentage))
  {
    PercentageThreshold(info, cfg.percentWindow);
    PercentageExactly(cfg, events, Some(info));
  }

  /** The polls of the main loop, in order. */
  function Polls(events: seq<Event>): seq<bool> {
    if events == [] then []
    else
      var last := events[|events| - 1];
      if last.MonikerKnown? then []
      else if last.NodesPoll? then Polls(events[..|events| - 1]) + [last.seen]
      else Polls(events[..|events| - 1])
  }

  /** How many polls in a row, up to now, saw no usable node. */
  function Streak(polls: seq<bool>): (n: nat)
    ensures n <= |polls| && (forall i :: |polls| - n <= i < |polls| ==> polls[i])
    ensures n < |polls| ==> !polls[|polls| - n - 1]
  {
    if polls == [] || !polls[|polls| - 1] then 0 else 1 + Streak(polls[..|polls| - 1])
  }

  lemma StreakAppended(polls: seq<bool>, seen: bool)
    ensures Streak(polls + [seen]) == if seen then Streak(polls) + 1 else 0
  {
    assert (polls + [seen])[..|polls|] == polls;
  }

  lemma StepOther(cfg: AlertConfig, w: Watch, e: Event)
    requires !e.NodesPoll? && !e.StartupPoll? && !e.MonikerKnown?
    ensures var w' := Next(cfg, w, e).0;
            w'.connected == w.connected && w'.noNodes == w.noNodes && w'.noNodesSec == w.noNodesSec
  {
    match e case FinalBlock(_) => case StalledCheck(_) => case ConsecutiveCheck(_) => case PercentageCheck(_) =>
  }

  /** The count of seconds fits a streak of polls. */
  predicate SecondsFit(w: Watch, streak: nat) {
    w.noNodesSec == if w.noNodes then 0 else 2 * streak
  }

  lemma StepSeconds(cfg: AlertConfig, w: Watch, streak: nat, seen: bool)
    requires cfg.alertIfNoServers && SecondsFit(w, streak)
    ensures var w' := Next(cfg, w, NodesPoll(seen)).0;
            SecondsFit(w', if seen then streak + 1 else 0) && w'.connected == w.connected
  {
  }

  lemma {:induction false} SecondsCountStreak(cfg: AlertConfig, events: seq<Event>)
    requires cfg.alertIfNoServers && Possible(cfg, events)
    ensures var w := After(cfg, events);
            if w.connected then SecondsFit(w, Streak(Polls(events))) else Polls(events) == []
  {
    if events != [] {
      var before, last := events[..|events| - 1], events[|events| - 1];
      SecondsCountStreak(cfg, before);
      match last
      case NodesPoll(seen) =>
        StreakAppended(Polls(before), seen);
        StepSeconds(cfg, After(cfg, before), Streak(Polls(before)), seen);
      case StartupPoll(_) =>
      case MonikerKnown =>
      case _ => StepOther(cfg, After(cfg, before), last);
    }
  }

  /**
   In the main loop a no-nodes trigger is sent exactly by a poll that sees no node, with the
   alarm off, when the unbroken run of such polls, at two seconds each, exceeds half the
   configured node-down time. Any poll that sees a node starts the count again.
   */
  lemma NoNodesDebounced(cfg: AlertConfig, events: seq<Event>)
    requires cfg.alertIfNoServers && Possible(cfg, events)
    requires events != [] && events[|events| - 1].NodesPoll?
    ensures var before := After(cfg, events[..|events| - 1]);
            Sent(cfg, events) == Some(Emission(NoNodes, false)) <==>
            !before.noNodes && events[|events| - 1].seen && 2 * Streak(Polls(events)) > 30 * cfg.nodeDownMin
  {
    SecondsCountStreak(cfg, events[..|events| - 1]);
    StreakAppended(Polls(events[..|events| - 1]), events[|events| - 1].seen);
  }

  function StartupPolls(events: seq<Event>): nat {
    if events == [] then 0
    else StartupPolls(events[..|events| - 1]) + (if events[|events| - 1].StartupPoll? then 1 else 0)
  }

  lemma {:induction false} StartupCountsSeconds(cfg: AlertConfig, events: seq<Event>)
    requires Possible(cfg, events)
    ensures !After(cfg, events).connected ==> After(cfg, events).noNodesSec == StartupPolls(events)
  {
    if events != [] {
      var before, last := events[..|events| - 1], events[|events| - 1];
      StartupCountsSeconds(cfg, before);
      if !last.StartupPoll? && !last.MonikerKnown? && !last.NodesPoll? {
        StepOther(cfg, After(cfg, before), last);
      }
    }
  }

  /**
   Before the moniker is known the count is of all seconds waited, not of an unbroken outage: the
   alarm goes on at the first poll without nodes after the whole node-down time.
   */
  lemma StartupIsNotDebounced(cfg: AlertConfig, events: seq<Event>, seen: bool)
    requires Possible(cfg, events) && !After(cfg, events).connected
    ensures var sent := Next(cfg, After(cfg, events), StartupPoll(seen)).1;
            && (sent.Some? ==> sent == Some(Emission(NoNodes, false)))
            && (sent.Some? <==>
                && cfg.alertIfNoServers && seen && !Open(cfg, events, NoNodes)
                && StartupPolls(events) >= 60 * cfg.nodeDownMin)
  {
    StartupCountsSeconds(cfg, events);
    AlertsAlternate(cfg, events, NoNodes);
  }

  /** The nodes answered for n seconds of waiting. */
  function Waiting(n: nat): seq<Event> {
    seq(n, i => StartupPoll(false))
  }

  lemma {:induction false} WaitingIsPossible(cfg: AlertConfig, n: nat)
    ensures Possible(cfg, Waiting(n)) && StartupPolls(Waiting(n)) == n
    ensures !After(cfg, Waiting(n)).connected && !After(cfg, Waiting(n)).noNodes
  {
    if n > 0 {
      WaitingIsPossible(cfg, n - 1);
      assert Waiting(n)[..n - 1] == Waiting(n - 1);
    }
  }

  /** After a minute with usable nodes a single second without one raises the alarm of a one-minute limit. */
  lemma OneSecondRaisesNoNodes(cfg: AlertConfig)
    requires cfg.alertIfNoServers && cfg.nodeDownMin == 1
    ensures Possible(cfg, Waiting(60) + [StartupPoll(true)])
    ensures Sent(cfg, Waiting(60) + [StartupPoll(true)]) == Some(Emission(NoNodes, false))
  {
    WaitingIsPossible(cfg, 60);
    assert (Waiting(60) + [StartupPoll(true)])[..60] == Waiting(60);
    AlertsAlternate(cfg, Waiting(60), NoNodes);
    StartupIsNotDebounced(cfg, Waiting(60), true);
  }

  /** For a positive slashing window the threshold is the exact integer comparison. */
  lemma PercentageThreshold(info: Slashing, threshold: int)
    requires info.window > 0
    ensures MissedPercent(info) > threshold as real <==> 100 * info.missed > threshold * info.window
    ensures MissedPercent(info) < threshold as real <==> 100 * info.missed < threshold * info.window
  {
    var x, w, t := 100.0 * info.missed as real, info.window as real, threshold as real;
    assert (x / w) * w == x;
    assert x / w > t <==> x > t * w;
    assert x / w < t <==> x < t * w;
    assert t * w == (threshold * info.window) as real;
  }

  /**
   After a poll of the main loop the no-nodes alarm is open exactly when no node was seen and it was
   open or the unbroken run of such polls exceeds the limit; when disabled it stays as it was.
   */
  lemma NodesExactly(cfg: AlertConfig, events: seq<Event>, seen: bool)
    requires Possible(cfg, events) && After(cfg, events).connected
    ensures var after := events + [NodesPoll(seen)];
            if cfg.alertIfNoServers then
              Open(cfg, after, NoNodes) <==>
              seen && (Open(cfg, events, NoNodes) || 2 * Streak(Polls(after)) > 30 * cfg.nodeDownMin)
            else Sent(cfg, after) == None && Open(cfg, after, NoNodes) == Open(cfg, events, NoNodes)
  {
    var after := events + [NodesPoll(seen)];
    assert after[..|after| - 1] == events;
    if cfg.alertIfNoServers {
      NoNodesDebounced(cfg, after);
    }
    AlertsAlternate(cfg, events, NoNodes);
    AlertsAlternate(cfg, after, NoNodes);
  }

  /** With its alerts enabled the consecutive-miss alarm is open exactly when the last check saw the limit reached. */
  lemma ConsecutiveExactly(cfg: AlertConfig, events: seq<Event>, misses: int)
    ensures var after := events + [ConsecutiveCheck(misses)];
            if cfg.consecutiveEnabled then Open(cfg, after, Consecutive) <==> misses >= cfg.consecutiveMissed
            else Open(cfg, after, Consecutive) <==> Open(cfg, events, Consecutive) && misses >= cfg.consecutiveMissed
  {
    var after := events + [ConsecutiveCheck(misses)];
    assert after[..|after| - 1] == events;
    AlertsAlternate(cfg, events, Consecutive);
    AlertsAlternate(cfg, after, Consecutive);
  }

  predicate AlarmEnabled(cfg: AlertConfig, alarm: Alarm) {
    match alarm
    case Stalled => cfg.stalledEnabled
    case Percentage => cfg.percentEnabled
    case Consecutive => cfg.consecutiveEnabled
    case NoNodes => cfg.alertIfNoServers
  }

  lemma StepDisabled(cfg: AlertConfig, w: Watch, e: Event, alarm: Alarm)
    requires !AlarmEnabled(cfg, alarm) && !Latched(w, alarm)
    ensures var (w', sent) := Next(cfg, w, e);
            !Latched(w', alarm) && (sent == None || sent.value.alarm != alarm)
  {
    match e case FinalBlock(_) => case StartupPoll(_) => case MonikerKnown => case NodesPoll(_) =>
    case StalledCheck(_) => case ConsecutiveCheck(_) => case PercentageCheck(_) =>
  }

  /** An alarm that is not enabled never sends anything. */
  lemma {:induction false} DisabledSendsNothing(cfg: AlertConfig, events: seq<Event>, alarm: Alarm)
    requires !AlarmEnabled(cfg, alarm)
    ensures Emitted(cfg, events, alarm) == [] && !Latched(After(cfg, events), alarm)
  {
    if events != [] {
      DisabledSendsNothing(cfg, events[..|events| - 1], alarm);
      StepDisabled(cfg, After(cfg, events[..|events| - 1]), events[|events| - 1], alarm);
    }
  }

  /** Whether each alert for the alarm was a resolution, in order. */
  function KindsFor(alerts: seq<Emission>, alarm: Alarm): seq<bool> {
    if alerts == [] then []
    else
      var last := alerts[|alerts| - 1];
      KindsFor(alerts[..|alerts| - 1], alarm) + (if last.alarm == alarm then [last.resolved] else [])
  }

  function With(alerts: seq<Emission>, sent: Option<Emission>): seq<Emission> {
    if sent.Some? then alerts + [sent.value] else alerts
  }

  /** `alerts` are the alerts of all alarms that the events sent, each alarm's in order. */
  ghost predicate Sends(cfg: AlertConfig, events: seq<Event>, alerts: seq<Emission>) {
    forall a :: KindsFor(alerts, a) == Emitted(cfg, events, a)
  }

  lemma EventAppended(cfg: AlertConfig, events: seq<Event>, alerts: seq<Emission>, e: Event)
    requires Sends(cfg, events, alerts)
    ensures var (w, sent) := Next(cfg, After(cfg, events), e);
            After(cfg, events + [e]) == w && Sends(cfg, events + [e], With(alerts, sent))
    ensures Possible(cfg, events + [e]) <==> Possible(cfg, events) && Enabled(After(cfg, events), e)
  {
    var after := events + [e];
    assert after[..|after| - 1] == events;
    forall a: Alarm
      ensures KindsFor(With(alerts, Sent(cfg, after)), a) == Emitted(cfg, after, a)
    {
      KindsAppended(alerts, Sent(cfg, after), a);
    }
  }

  lemma KindsAppended(alerts: seq<Emission>, sent: Option<Emission>, a: Alarm)
    ensures KindsFor(With(alerts, sent), a) ==
            if sent.Some? && sent.value.alarm == a then KindsFor(alerts, a) + [sent.value.resolved] else KindsFor(alerts, a)
  {
    if sent.Some? {
      assert With(alerts, sent)[..|alerts|] == alerts;
    }
  }

  /** The watch over one chain: `alerts` is what it handed to the alert channel, `events` all that happened to it. */
  class ChainWatch {
    const cfg: AlertConfig
    var connected: bool
    var lastBlockTime: Time
    var lastBlockAlarm: bool
    var resolutionPending: bool
    var percentageAlarm: bool
    var missedAlarm: bool
    var noNodes: bool
    var noNodesSec: int
    var alerts: seq<Emission>
    ghost var events: seq<Event>

    function State(): Watch
      reads this
    {
      Watch(connected, lastBlockTime, lastBlockAlarm, resolutionPending, percentageAlarm, missedAlarm, noNodes, noNodesSec)
    }

    ghost predicate Valid()
      reads this
    {
      State() == After(cfg, events) && Possible(cfg, events) && Sends(cfg, events, alerts)
    }

    constructor (cfg: AlertConfig)
      ensures Valid() && this.cfg == cfg && events == [] && alerts == [] && !connected
    {
      this.cfg, alerts, events := cfg, [], [];
      connected, lastBlockTime, lastBlockAlarm, resolutionPending := false, ZERO_TIME, false, false;
      percentageAlarm, missedAlarm, noNodes, noNodesSec := false, false, false, 0;
    }

    method RecordFinalBlock(now: Time) returns (previous: Time)
      requires Valid()
      modifies this`lastBlockTime, this`resolutionPending, this`events
      ensures Valid() && events == old(events) + [FinalBlock(now)]
      ensures previous == LastFinal(old(events))
    {
      StalledHistory(cfg, events);
      EventAppended(cfg, events, alerts, FinalBlock(now));
      previous := lastBlockTime;
      lastBlockTime := now;
      if lastBlockAlarm {
        resolutionPending := true;
      }
      events := events + [FinalBlock(now)];
    }

    /** A stall is reported when none is open and the last final block is too old, its end when one came since. */
    method CheckStalledAlert(now: Time) returns (sent: Option<Emission>)
      requires Valid() && connected
      modifies this`lastBlockAlarm, this`resolutionPending, this`alerts, this`events
      ensures Valid() && events == old(events) + [StalledCheck(now)] && alerts == With(old(alerts), sent)
      ensures sent == Some(Emission(Stalled, false)) <==>
              && cfg.stalledEnabled && !Open(cfg, old(events), Stalled) && LastFinal(old(events)) != ZERO_TIME
              && now - LastFinal(old(events)) > cfg.stalledMinutes * 60_000_000_000
      ensures sent == Some(Emission(Stalled, true)) <==>
              cfg.stalledEnabled && Open(cfg, old(events), Stalled) && FinalSinceStall(cfg, old(events))
    {
      if cfg.stalledEnabled {
        StalledExactly(cfg, events, now);
      }
      EventAppended(cfg, events, alerts, StalledCheck(now));
      events := events + [StalledCheck(now)];
      var resolved := false;
      if cfg.stalledEnabled && !lastBlockAlarm && lastBlockTime != ZERO_TIME &&
         lastBlockTime < now - cfg.stalledMinutes * MINUTE {
        lastBlockAlarm := true;
      } else if cfg.stalledEnabled && lastBlockAlarm && resolutionPending {
        lastBlockAlarm := false;
        resolutionPending := false;
        resolved := true;
      } else {
        return None;
      }
      sent := Some(Emission(Stalled, resolved));
      alerts := alerts + [sent.value];
    }

    /** The alarm is open above its threshold, closed below it, and as it was at it. */
    method CheckPercentageAlert(info: Option<Slashing>) returns (sent: Option<Emission>)
      requires Valid() && connected
      modifies this`percentageAlarm, this`alerts, this`events
      ensures Valid() && events == old(events) + [PercentageCheck(info)] && alerts == With(old(alerts), sent)
      ensures !cfg.percentEnabled || info == None || info.value.window == 0 ==>
                sent == None && Open(cfg, events, Percentage) == Open(cfg, old(events), Percentage)
      ensures cfg.percentEnabled && info != None && info.value.window != 0 ==>
                var percent, limit := 100.0 * info.value.missed as real / info.value.window as real, cfg.percentWindow as real;
                Open(cfg, events, Percentage) <==> percent > limit || (percent == limit && Open(cfg, old(events), Percentage))
    {
      PercentageExactly(cfg, events, info);
      EventAppended(cfg, events, alerts, PercentageCheck(info));
      events := events + [PercentageCheck(info)];
      if !cfg.percentEnabled || info.None? || info.value.window == 0 {
        return None;
      }
      var percentMissed := MissedPercent(info.value);
      var resolved := false;
      if !percentageAlarm && percentMissed > cfg.percentWindow as real {
        percentageAlarm := true;
      } else if percentageAlarm && percentMissed < cfg.percentWindow as real {
        percentageAlarm := false;
        resolved := true;
      } else {
        return None;
      }
      sent := Some(Emission(Percentage, resolved));
      alerts := alerts + [sent.value];
    }

    /** With its alerts enabled the alarm is open exactly when the limit is reached. */
    method CheckConsecutive(misses: int) returns (sent: Option<Emission>)
      requires Valid() && connected
      modifies this`missedAlarm, this`alerts, this`events
      ensures Valid() && events == old(events) + [ConsecutiveCheck(misses)] && alerts == With(old(alerts), sent)
      ensures Open(cfg, events, Consecutive) <==>
              misses >= cfg.consecutiveMissed && (cfg.consecutiveEnabled || Open(cfg, old(events), Consecutive))
    {
      ConsecutiveExactly(cfg, events, misses);
      EventAppended(cfg, events, alerts, ConsecutiveCheck(misses));
      events := events + [ConsecutiveCheck(misses)];
      sent := None;
      if !missedAlarm && cfg.consecutiveEnabled && misses >= cfg.consecutiveMissed {
        missedAlarm := true;
        sent := Some(Emission(Consecutive, false));
        alerts := alerts + [sent.value];
      } else if missedAlarm && misses < cfg.consecutiveMissed {
        missedAlarm := false;
        sent := Some(Emission(Consecutive, true));
        alerts := alerts + [sent.value];
      }
    }

    /** One second of waiting for a moniker, or its end. */
    method WaitForMoniker(known: bool, seen: bool) returns (sent: Option<Emission>)
      requires Valid() && !connected
      modifies this`connected, this`noNodes, this`noNodesSec, this`alerts, this`events
      ensures Valid() && events == old(events) + [if known then MonikerKnown else StartupPoll(seen)]
      ensures alerts == With(old(alerts), sent) && connected == known
      ensures sent.Some? <==>
              && !known && cfg.alertIfNoServers && seen && !Open(cfg, old(events), NoNodes)
              && StartupPolls(old(events)) >= 60 * cfg.nodeDownMin
    {
      ghost var e := if known then MonikerKnown else StartupPoll(seen);
      StartupIsNotDebounced(cfg, events, seen);
      EventAppended(cfg, events, alerts, e);
      events := events + [e];
      sent := None;
      if known {
        noNodesSec := 0;
        connected := true;
        return;
      }
      if cfg.alertIfNoServers && !noNodes && seen && noNodesSec >= 60 * cfg.nodeDownMin {
        noNodes := true;
        sent := Some(Emission(NoNodes, false));
        alerts := alerts + [sent.value];
      }
      noNodesSec := noNodesSec + 1;
    }

    /** The alarm opens when an unbroken run of polls without nodes exceeds the limit, and closes with a node. */
    method PollNodes(seen: bool) returns (sent: Option<Emission>)
      requires Valid() && connected
      modifies this`noNodes, this`noNodesSec, this`alerts, this`events
      ensures Valid() && events == old(events) + [NodesPoll(seen)] && alerts == With(old(alerts), sent)
      ensures cfg.alertIfNoServers ==>
                (Open(cfg, events, NoNodes) <==>
                 seen && (Open(cfg, old(events), NoNodes) || 2 * Streak(Polls(events)) > 30 * cfg.nodeDownMin))
      ensures !cfg.alertIfNoServers ==> sent == None && Open(cfg, events, NoNodes) == Open(cfg, old(events), NoNodes)
    {
      NodesExactly(cfg, events, seen);
      EventAppended(cfg, events, alerts, NodesPoll(seen));
      events := events + [NodesPoll(seen)];
      sent := None;
      if cfg.alertIfNoServers && !noNodes && seen {
        noNodesSec := noNodesSec + 2;
        if noNodesSec <= 30 * cfg.nodeDownMin {
          noNodes := false;
        } else {
          noNodesSec := 0;
          noNodes := true;
          sent := Some(Emission(NoNodes, false));
          alerts := alerts + [sent.value];
        }
      } else if cfg.alertIfNoServers && noNodes && !seen {
        noNodes := false;
        sent := Some(Emission(NoNodes, true));
        alerts := alerts + [sent.value];
      } else {
        noNodesSec := 0;
      }
    }

    method RecordFinalBlocks(blocks: seq<Time>)
      requires Valid() && connected
      modifies this
      ensures Valid() && connected && events == old(events) + BlockEvents(blocks)
    {
      ghost var start := events;
      BlocksOneByOne(start, blocks);
      for i := 0 to |blocks|
        invariant Valid() && connected && events == start + BlockEvents(blocks[..i])
      {
        var previous := RecordFinalBlock(blocks[i]);
      }
    }

    method Check(tick: Tick)
      requires Valid() && connected
      modifies this
      ensures Valid() && connected && events == old(events) + CheckEvents(tick)
    {
      ChecksInOrder(events, tick);
      var sent := PollNodes(tick.seen);
      sent := CheckStalledAlert(tick.now);
      sent := CheckConsecutive(tick.misses);
      sent := CheckPercentageAlert(tick.info);
    }

    /** One round of the main loop: the final blocks recorded before it, and its checks in order. */
    method Round(tick: Tick)
      requires Valid() && connected
      modifies this
      ensures Valid() && connected && events == old(events) + RoundEvents(tick)
    {
      ghost var start := events;
      RecordFinalBlocks(tick.blocks);
      Check(tick);
      assert events == start + RoundEvents(tick);
    }

    /**
     The watch over a chain: seconds of waiting for a moniker, then rounds of checks. For each alarm
     the alerts it sends alternate between trigger and resolution, beginning with a trigger.
     */
    method Run(waits: seq<bool>, ticks: seq<Tick>)
      requires Valid() && !connected
      modifies this
      ensures Valid() && forall a :: Alternates(false, KindsFor(alerts, a))
      ensures events == old(events) + WaitEvents(waits) + [MonikerKnown] + TickEvents(ticks)
    {
      ghost var start := events;
      WaitsOneByOne(start, waits);
      for i := 0 to |waits|
        invariant Valid() && !connected && events == start + WaitEvents(waits[..i])
      {
        var sent := WaitForMoniker(false, waits[i]);
      }
      var sent := WaitForMoniker(true, false);
      ghost var connectedAt := events;
      TicksOneByOne(connectedAt, ticks);
      for i := 0 to |ticks|
        invariant Valid() && connected && events == connectedAt + TickEvents(ticks[..i])
      {
        Round(ticks[i]);
      }
      forall a: Alarm {
        AlertsAlternate(cfg, events, a);
      }
    }
  }

  /** One round of the main loop: final blocks recorded before it, and what its checks see. */
  datatype Tick = Tick(blocks: seq<Time>, seen: bool, now: Time, misses: int, info: Option<Slashing>)

  function BlockEvents(blocks: seq<Time>): seq<Event> {
    seq(|blocks|, i requires 0 <= i < |blocks| => FinalBlock(blocks[i]))
  }

  function WaitEvents(waits: seq<bool>): seq<Event> {
    seq(|waits|, i requires 0 <= i < |waits| => StartupPoll(waits[i]))
  }

  /** All four checks, every round, in the order of the loop. */
  function CheckEvents(tick: Tick): seq<Event> {
    [NodesPoll(tick.seen), StalledCheck(tick.now), ConsecutiveCheck(tick.misses), PercentageCheck(tick.info)]
  }

  function RoundEvents(tick: Tick): seq<Event> {
    BlockEvents(tick.blocks) + CheckEvents(tick)
  }

  lemma ChecksInOrder(start: seq<Event>, tick: Tick)
    ensures start + [NodesPoll(tick.seen)] + [StalledCheck(tick.now)] + [ConsecutiveCheck(tick.misses)] +
            [PercentageCheck(tick.info)] == start + CheckEvents(tick)
  {
  }

  function TickEvents(ticks: seq<Tick>): seq<Event> {
    if ticks == [] then [] else TickEvents(ticks[..|ticks| - 1]) + RoundEvents(ticks[|ticks| - 1])
  }

  lemma BlocksOneByOne(start: seq<Event>, blocks: seq<Time>)
    ensures start + BlockEvents(blocks[..0]) == start && blocks[..|blocks|] == blocks
    ensures forall i :: 0 <= i < |blocks| ==>
              start + BlockEvents(blocks[..i]) + [FinalBlock(blocks[i])] == start + BlockEvents(blocks[..i + 1])
  {
  }

  lemma WaitsOneByOne(start: seq<Event>, waits: seq<bool>)
    ensures start + WaitEvents(waits[..0]) == start && waits[..|waits|] == waits
    ensures forall i :: 0 <= i < |waits| ==>
              start + WaitEvents(waits[..i]) + [StartupPoll(waits[i])] == start + WaitEvents(waits[..i + 1])
  {
  }

  lemma TicksOneByOne(start: seq<Event>, ticks: seq<Tick>)
    ensures start + TickEvents(ticks[..0]) == start && ticks[..|ticks|] == ticks
    ensures forall i :: 0 <= i < |ticks| ==>
              start + TickEvents(ticks[..i]) + RoundEvents(ticks[i]) == start + TickEvents(ticks[..i + 1])
  {
    forall i | 0 <= i < |ticks|
      ensures start + TickEvents(ticks[..i]) + RoundEvents(ticks[i]) == start + TickEvents(ticks[..i + 1])
    {
      assert ticks[..i + 1][..i] == ticks[..i];
    }
  }
}
