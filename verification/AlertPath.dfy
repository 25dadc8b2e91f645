/** An alarm's way from the watch that raises it, through the channel and the worker, to a destination. */
module AlertPath {
  import opened Basics
  import opened Delivery
  import Latches
  import SerialWorker
  import Shutdown

  /** Of the alerts sent, the kinds of those for the message that go to the destination, in order. */
  function KindsSent(alerts: seq<AlertMsg>, key: Key): seq<bool> {
    if alerts == [] then []
    else
      var last := alerts[|alerts| - 1];
      KindsSent(alerts[..|alerts| - 1], key) +
      (if last.message == key.message && key.dest in last.wanted then [last.resolved] else [])
  }

  /** The attempts are the alerts numbered `served`, in that order, each accepted by the destination. */
  ghost predicate Serves(attempts: seq<SerialWorker.Attempt>, alerts: seq<AlertMsg>, served: seq<nat>, dest: Dest) {
    && |attempts| == |served|
    && (forall i :: 0 <= i < |attempts| ==>
          && attempts[i].Valid() && dest in attempts[i].accepting
          && served[i] < |alerts| && attempts[i].msg == alerts[served[i]])
  }

  ghost predicate ServesAll(attempts: seq<SerialWorker.Attempt>, alerts: seq<AlertMsg>, dest: Dest) {
    && |attempts| == |alerts|
    && (forall i :: 0 <= i < |attempts| ==> dest in attempts[i].accepting && attempts[i].msg == alerts[i])
  }

  /** Serving all alerts in order emits to the destination what was sent. */
  lemma {:induction false} EmittedAsSent(attempts: seq<SerialWorker.Attempt>, alerts: seq<AlertMsg>, key: Key)
    requires ServesAll(attempts, alerts, key.dest)
    ensures var emitted := SerialWorker.Emitted(attempts, key);
            && SerialWorker.KindsOf(emitted) == KindsSent(alerts, key)
            && (forall i :: 0 <= i < |emitted| ==> emitted[i].accepted)
  {
    if attempts != [] {
      var n := |attempts| - 1;
      EmittedAsSent(attempts[..n], alerts[..n], key);
      SerialWorker.KindsAppended(SerialWorker.Emitted(attempts[..n], key), SerialWorker.Emission(alerts[n].resolved, true));
    }
  }

  /**
   End to end, for every destination but PagerDuty: when the program has shut down and the
   destination accepted everything, what it accepted for an alarm's message from a fresh start is
   exactly what the alarm's latch emitted, and the alarm stands as sent exactly when it is latched.
   */
  lemma AlarmReachesDestination(
      states: seq<Shutdown.System>, events: seq<Shutdown.Event>, k: nat,
      alerts: seq<AlertMsg>, attempts: seq<SerialWorker.Attempt>,
      cfg: Latches.AlertConfig, watched: seq<Latches.Event>, alarm: Latches.Alarm, key: Key)
    requires Shutdown.IsProgramRun(states, events) && k < |states| && states[k].saved.Some?
    requires |alerts| == states[k].sent
    requires KindsSent(alerts, key) == Latches.Emitted(cfg, watched, alarm)
    requires key.dest != Pd && Serves(attempts, alerts, Shutdown.Served(states[k].log, key.dest), key.dest)
    ensures SerialWorker.AcceptedKinds(EMPTY_CACHE, attempts, key) == Latches.Emitted(cfg, watched, alarm)
    ensures SerialWorker.DeliveredAll(EMPTY_CACHE, attempts).Sent(key.dest, key.message) ==
            Latches.Latched(Latches.After(cfg, watched), alarm)
  {
    Shutdown.AllServed(states, events, k, key.dest);
    EmittedAsSent(attempts, alerts, key);
    Latches.AlertsAlternate(cfg, watched, alarm);
    SerialWorker.AlternatingStreamIsDelivered(EMPTY_CACHE, attempts, key);
  }
}
