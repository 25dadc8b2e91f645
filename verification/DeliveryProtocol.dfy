/**
 Any number of concurrent senders around one alarm cache. Reserving and completing a delivery
 are atomic steps under the cache's lock; the network call between them is not, so any other
 steps may come in between, and it may be accepted or not.
 */
module DeliveryProtocol {
  import opened Basics
  import opened Delivery

  datatype Held = Held(msg: AlertMsg, dest: Dest)
  {
    function Key(): Delivery.Key {
      Delivery.Key(dest, msg.message)
    }

    predicate PdTrigger() {
      dest == Pd && !msg.resolved
    }

    function Flap(): FlapKey {
      FlapKey(msg.chain, msg.message)
    }
  }

  /** A delivery the destination accepted, and when that was committed. */
  datatype Accepted = Accepted(held: Held, at: Time)

  /** `holders` are the senders inside a network call; `history` the accepted deliveries in order. */
  datatype System = System(cache: Cache, clock: Time, holders: map<nat, Held>, history: seq<Accepted>)

  datatype Event =
    | Reserve(sender: nat, held: Held, now: Time)
    | Complete(sender: nat, accepted: bool, now: Time)
    | Dashboard(chain: string, message: string, resolved: bool, now: Time)
    | ClearStalls(chain: string)

  predicate Enabled(s: System, e: Event) {
    match e
    case Reserve(sender, _, now) => sender !in s.holders && s.clock <= now
    case Complete(sender, _, now) => sender in s.holders && s.clock <= now
    case Dashboard(_, _, _, now) => s.clock <= now
    case ClearStalls(_) => true
  }

  function Next(s: System, e: Event): System
    requires Enabled(s, e)
  {
    match e
    case Reserve(sender, held, now) =>
      s.(cache := s.cache.Reserved(held.msg, held.dest, now), clock := now,
         holders := if s.cache.MayReserve(held.msg, held.dest, now) then s.holders[sender := held] else s.holders)
    case Complete(sender, accepted, now) =>
      var h := s.holders[sender];
      s.(cache := s.cache.Completed(h.msg, h.dest, accepted, now), clock := now, holders := s.holders - {sender},
         history := if accepted then s.history + [Accepted(h, now)] else s.history)
    case Dashboard(chain, message, resolved, now) =>
      s.(cache := s.cache.Recorded(chain, message, resolved, now), clock := now)
    case ClearStalls(chain) =>
      s.(cache := s.cache.StallsCleared(chain))
  }

  ghost predicate IsRun(states: seq<System>, events: seq<Event>) {
    && |states| == |events| + 1
    && (forall i :: 0 <= i < |events| ==> Enabled(states[i], events[i]) && states[i + 1] == Next(states[i], events[i]))
  }

  /** A process starts with nothing in flight; what was sent before it started is arbitrary. */
  predicate Initial(s: System) {
    && s.cache.inFlight == {} && s.holders == map[] && s.history == []
    && s.clock > ZERO_TIME
    && (forall f :: f in s.cache.flapping ==> s.cache.flapping[f] <= s.clock)
  }

  /** Reservations are exactly the keys held, each by one sender, each still justified. */
  ghost predicate Exclusive(s: System) {
    && (forall t :: t in s.holders ==> s.holders[t].Key() in s.cache.inFlight)
    && (forall k :: k in s.cache.inFlight ==> exists t :: t in s.holders && s.holders[t].Key() == k)
    && (forall t, u :: t in s.holders && u in s.holders && t != u ==> s.holders[t].Key() != s.holders[u].Key())
    && (forall t :: t in s.holders ==>
          s.holders[t].msg.resolved == s.cache.Sent(s.holders[t].dest, s.holders[t].msg.message))
  }

  /** The kinds, resolved or not, of the accepted deliveries for `key`, in order. */
  function Kinds(history: seq<Accepted>, key: Key): seq<bool> {
    if history == [] then []
    else
      var last := history[|history| - 1].held;
      var before := Kinds(history[..|history| - 1], key);
      if last.Key() == key then before + [last.msg.resolved] else before
  }

  /** The accepted history of a key alternates, and says whether the key is sent now. */
  ghost predicate Tracked(s: System, key: Key, sentAtStart: bool) {
    var kinds := Kinds(s.history, key);
    && Alternates(sentAtStart, kinds)
    && s.cache.Sent(key.dest, key.message) == Turn(sentAtStart, kinds)
  }

  /** PagerDuty triggers for one chain and message are five minutes apart. */
  ghost predicate Spaced(history: seq<Accepted>) {
    forall i, j :: 0 <= i < j < |history| && history[i].held.PdTrigger() && history[j].held.PdTrigger()
                   && history[i].held.Flap() == history[j].held.Flap() ==>
      history[j].at - history[i].at >= FLAP_WINDOW
  }

  ghost predicate FlapsTracked(s: System) {
    && s.clock > ZERO_TIME
    && (forall f :: f in s.cache.flapping ==> s.cache.flapping[f] <= s.clock)
    && (forall i :: 0 <= i < |s.history| && s.history[i].held.PdTrigger() ==>
          s.history[i].held.Flap() in s.cache.flapping && s.history[i].at <= s.cache.flapping[s.history[i].held.Flap()])
    && (forall t :: t in s.holders && s.holders[t].PdTrigger() && s.holders[t].Flap() in s.cache.flapping ==>
          s.cache.flapping[s.holders[t].Flap()] <= s.clock - FLAP_WINDOW)
  }

  /** A completion moves nothing but its own key. */
  lemma CompletedSent(c: Cache, h: Held, accepted: bool, now: Time, dest: Dest, message: string)
    requires now != ZERO_TIME
    ensures c.Completed(h.msg, h.dest, accepted, now).Sent(dest, message) ==
            if accepted && h.Key() == Key(dest, message) then !h.msg.resolved else c.Sent(dest, message)
  {
  }

  lemma ReserveExclusive(s: System, sender: nat, held: Held, now: Time)
    requires Exclusive(s) && Enabled(s, Reserve(sender, held, now))
    ensures Exclusive(Next(s, Reserve(sender, held, now)))
  {
    var s' := Next(s, Reserve(sender, held, now));
    if s.cache.MayReserve(held.msg, held.dest, now) {
      forall k | k in s'.cache.inFlight
        ensures exists t :: t in s'.holders && s'.holders[t].Key() == k
      {
        if k == held.Key() {
          assert s'.holders[sender].Key() == k;
        } else {
          var t :| t in s.holders && s.holders[t].Key() == k;
          assert s'.holders[t].Key() == k;
        }
      }
      forall t | t in s'.holders
        ensures t == sender || (t in s.holders && s'.holders[t] == s.holders[t] && s.holders[t].Key() != held.Key())
      {
      }
    }
  }

  lemma CompleteExclusive(s: System, sender: nat, accepted: bool, now: Time)
    requires Exclusive(s) && Enabled(s, Complete(sender, accepted, now)) && now != ZERO_TIME
    ensures Exclusive(Next(s, Complete(sender, accepted, now)))
  {
    var s' := Next(s, Complete(sender, accepted, now));
    var h := s.holders[sender];
    forall k | k in s'.cache.inFlight
      ensures exists t :: t in s'.holders && s'.holders[t].Key() == k
    {
      var t :| t in s.holders && s.holders[t].Key() == k;
      assert t in s'.holders;
    }
    forall t | t in s'.holders
      ensures s'.holders[t].Key() in s'.cache.inFlight
      ensures s'.holders[t].msg.resolved == s'.cache.Sent(s'.holders[t].dest, s'.holders[t].msg.message)
    {
      assert s.holders[t].Key() != h.Key();
      CompletedSent(s.cache, h, accepted, now, s.holders[t].dest, s.holders[t].msg.message);
    }
  }

  lemma StepExclusive(s: System, e: Event)
    requires Exclusive(s) && Enabled(s, e) && s.clock > ZERO_TIME
    ensures Exclusive(Next(s, e))
  {
    match e
    case Reserve(sender, held, now) => ReserveExclusive(s, sender, held, now);
    case Complete(sender, accepted, now) => CompleteExclusive(s, sender, accepted, now);
    case _ =>
      var s' := Next(s, e);
      assert s'.cache.inFlight == s.cache.inFlight && s'.cache.sent == s.cache.sent && s'.holders == s.holders;
  }

  lemma CompleteTracked(s: System, sender: nat, accepted: bool, now: Time, key: Key, sentAtStart: bool)
    requires Exclusive(s) && Enabled(s, Complete(sender, accepted, now)) && now != ZERO_TIME
    requires Tracked(s, key, sentAtStart)
    ensures Tracked(Next(s, Complete(sender, accepted, now)), key, sentAtStart)
  {
    var s' := Next(s, Complete(sender, accepted, now));
    CompletedSent(s.cache, s.holders[sender], accepted, now, key.dest, key.message);
    if accepted {
      assert s'.history[..|s'.history| - 1] == s.history;
    }
  }

  lemma StepTracked(s: System, e: Event, key: Key, sentAtStart: bool)
    requires Exclusive(s) && Enabled(s, e) && s.clock > ZERO_TIME && Tracked(s, key, sentAtStart)
    ensures Tracked(Next(s, e), key, sentAtStart)
  {
    if e.Complete? {
      CompleteTracked(s, e.sender, e.accepted, e.now, key, sentAtStart);
    } else {
      var s' := Next(s, e);
      assert s'.cache.sent == s.cache.sent && s'.history == s.history;
    }
  }

  /** The trigger being completed is five minutes after every earlier one of its kind. */
  lemma CompleteSpaced(s: System, sender: nat, now: Time)
    requires Exclusive(s) && FlapsTracked(s) && Spaced(s.history) && Enabled(s, Complete(sender, true, now))
    requires s.holders[sender].PdTrigger()
    ensures var s' := Next(s, Complete(sender, true, now));
            FlapsTracked(s') && Spaced(s'.history)
  {
    var s' := Next(s, Complete(sender, true, now));
    var h := s.holders[sender];
    forall t | t in s'.holders && s'.holders[t].PdTrigger()
      ensures s'.holders[t].Flap() != h.Flap()
    {
      assert s.holders[t].Key() != h.Key();
    }
    assert forall i :: 0 <= i < |s.history| ==> s'.history[i] == s.history[i];
  }

  lemma StepSpaced(s: System, e: Event)
    requires Exclusive(s) && Enabled(s, e) && FlapsTracked(s) && Spaced(s.history)
    ensures FlapsTracked(Next(s, e)) && Spaced(Next(s, e).history)
  {
    if e.Complete? && e.accepted && s.holders[e.sender].PdTrigger() {
      CompleteSpaced(s, e.sender, e.now);
    }
  }

  ghost predicate Sound(s: System) {
    Exclusive(s) && FlapsTracked(s) && Spaced(s.history)
  }

  lemma {:induction false} RunSound(states: seq<System>, events: seq<Event>, k: nat)
    requires IsRun(states, events) && k < |states| && Initial(states[0])
    ensures Sound(states[k])
  {
    if k > 0 {
      RunSound(states, events, k - 1);
      StepExclusive(states[k - 1], events[k - 1]);
      StepSpaced(states[k - 1], events[k - 1]);
    }
  }

  /**
   At every moment of every run at most one sender holds a given destination and message, and
   the fact that let it start - a trigger not accepted, a resolution of an accepted trigger -
   is still true.
   */
  lemma OneSenderPerKey(states: seq<System>, events: seq<Event>, k: nat, t: nat, u: nat)
    requires IsRun(states, events) && k < |states| && Initial(states[0])
    requires t in states[k].holders && u in states[k].holders
    ensures states[k].holders[t].Key() == states[k].holders[u].Key() ==> t == u
    ensures var h := states[k].holders[t];
            h.msg.resolved == states[k].cache.Sent(h.dest, h.msg.message)
  {
    RunSound(states, events, k);
  }

  /**
   What a destination accepts for a message strictly alternates between trigger and resolution,
   whatever senders emit, starting from what was sent before the run.
   */
  lemma {:induction false} AcceptedAlternates(states: seq<System>, events: seq<Event>, k: nat, key: Key)
    requires IsRun(states, events) && k < |states| && Initial(states[0])
    ensures Tracked(states[k], key, states[0].cache.Sent(key.dest, key.message))
  {
    if k > 0 {
      AcceptedAlternates(states, events, k - 1, key);
      RunSound(states, events, k - 1);
      StepTracked(states[k - 1], events[k - 1], key, states[0].cache.Sent(key.dest, key.message));
    }
  }

  /** Accepted PagerDuty triggers for one chain and message are at least five minutes apart. */
  lemma PagerDutyTriggersSpaced(states: seq<System>, events: seq<Event>, k: nat, i: nat, j: nat)
    requires IsRun(states, events) && k < |states| && Initial(states[0])
    requires i < j < |states[k].history|
    requires states[k].history[i].held.PdTrigger() && states[k].history[j].held.PdTrigger()
    requires states[k].history[i].held.Flap() == states[k].history[j].held.Flap()
    ensures states[k].history[j].at - states[k].history[i].at >= 300_000_000_000
  {
    RunSound(states, events, k);
  }

  /**
   A delivery that was not accepted leaves what is sent and flapping as it was, and the same
   alert can be reserved again right away.
   */
  lemma RejectionFreesKey(states: seq<System>, events: seq<Event>, k: nat, sender: nat, now: Time)
    requires IsRun(states, events) && k < |states| && Initial(states[0])
    requires Enabled(states[k], Complete(sender, false, now))
    ensures var h := states[k].holders[sender];
            var s' := Next(states[k], Complete(sender, false, now));
            && s'.cache.sent == states[k].cache.sent && s'.cache.flapping == states[k].cache.flapping
            && s'.history == states[k].history
            && s'.cache.MayReserve(h.msg, h.dest, now)
  {
    RunSound(states, events, k);
  }

  /**
   A delivery that may start can be carried through at once, from any state and at any time: its
   sender reserves, the destination accepts, and the acceptance is recorded.
   */
  lemma DueDeliveryGoesThrough(s: System, sender: nat, held: Held, now: Time)
    requires sender !in s.holders && s.clock <= now && now != ZERO_TIME
    requires s.cache.MayReserve(held.msg, held.dest, now)
    ensures Enabled(s, Reserve(sender, held, now))
    ensures var reserved := Next(s, Reserve(sender, held, now));
            && Enabled(reserved, Complete(sender, true, now))
            && var done := Next(reserved, Complete(sender, true, now));
               && done.history == s.history + [Accepted(held, now)] && done.holders == s.holders && done.clock == now
               && done.cache.Sent(held.dest, held.msg.message) == !held.msg.resolved
               && done.cache.inFlight == s.cache.inFlight
  {
    var reserved := Next(s, Reserve(sender, held, now));
    CompletedSent(reserved.cache, held, true, now, held.dest, held.msg.message);
    assert s.cache.inFlight + {held.Key()} - {held.Key()} == s.cache.inFlight;
    assert s.holders[sender := held] - {sender} == s.holders;
  }

  /** The dashboard can be written at any time, and that touches no delivery. */
  lemma DashboardStandsApart(s: System, chain: string, message: string, resolved: bool, now: Time)
    requires s.clock <= now
    ensures Enabled(s, Dashboard(chain, message, resolved, now)) && Enabled(s, ClearStalls(chain))
    ensures var s' := Next(s, Dashboard(chain, message, resolved, now));
            && s' == s.(clock := now, cache := s.cache.(all := s'.cache.all))
            && EntryOf(s'.cache.OfChain(chain), message) == if resolved then None else Some(now)
    ensures var s' := Next(s, ClearStalls(chain));
            && s' == s.(cache := s.cache.(all := s'.cache.all))
            && EntryOf(s'.cache.OfChain(chain), message) ==
               if "stalled: have not seen a new block on" <= message then None else EntryOf(s.cache.OfChain(chain), message)
  {
  }
}
