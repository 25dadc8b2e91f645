/**
 The single notification worker: it takes alerts in order, offers each to its destinations and
 waits for all of them before the next. Emission order becomes acceptance order.
 */
module SerialWorker {
  import opened Basics
  import opened Delivery

  const PAGERDUTY_ATTEMPTS := 2

  /** A destination's delivery tries to reserve, and later completes if it did. */
  datatype Move = Begin(dest: Dest) | End(dest: Dest)

  /**
   One alert as the worker meets it: how the moves of its four concurrent deliveries interleave,
   which destinations accept, and when each delivery begins and ends.
   */
  datatype Attempt = Attempt(
    msg: AlertMsg, moves: seq<Move>, accepting: set<Dest>, start: Dest -> Time, done: Dest -> Time)
  {
    /** Every delivery begins once and then ends once; otherwise the order is free. */
    ghost predicate Valid() {
      && (forall d: Dest :: done(d) > ZERO_TIME)
      && InTurn(moves) && Begun(moves) == Ended(moves) == ALL
    }
  }

  const ALL: set<Dest> := {Pd, Tg, Di, Slk}

  function Begun(moves: seq<Move>): set<Dest> {
    set d: Dest | Begin(d) in moves
  }

  function Ended(moves: seq<Move>): set<Dest> {
    set d: Dest | End(d) in moves
  }

  predicate MayMove(begun: set<Dest>, ended: set<Dest>, move: Move) {
    move.dest !in ended && (move.Begin? <==> move.dest !in begun)
  }

  predicate InTurn(moves: seq<Move>) {
    moves != [] ==>
      var before := moves[..|moves| - 1];
      InTurn(before) && MayMove(Begun(before), Ended(before), moves[|moves| - 1])
  }

  /** The alert goes to the destination, judged by the cache before any of the four deliveries. */
  predicate Due(c: Cache, a: Attempt, dest: Dest) {
    dest in a.msg.wanted && c.MayReserve(a.msg, dest, a.start(dest))
  }

  /** The accepted triggers of a destination once its delivery has ended. */
  function TimesAfter(c: Cache, a: Attempt, dest: Dest): Times {
    var times := c.sent.Get(dest);
    if !Due(c, a, dest) || dest !in a.accepting then times
    else if a.msg.resolved then times - {a.msg.message}
    else times[a.msg.message := a.done(dest)]
  }

  function TimesAt(c: Cache, a: Attempt, ended: set<Dest>, dest: Dest): Times {
    if dest in ended then TimesAfter(c, a, dest) else c.sent.Get(dest)
  }

  function FlappingAt(c: Cache, a: Attempt, ended: set<Dest>): map<FlapKey, Time> {
    if Pd in ended && Due(c, a, Pd) && Pd in a.accepting && !a.msg.resolved
    then c.flapping[FlapKey(a.msg.chain, a.msg.message) := a.done(Pd)] else c.flapping
  }

  /** The cache when the deliveries to `begun` have begun and those to `ended` have ended, in any order. */
  function Reached(c: Cache, a: Attempt, begun: set<Dest>, ended: set<Dest>): Cache {
    Cache(
      SentMaps(TimesAt(c, a, ended, Pd), TimesAt(c, a, ended, Tg), TimesAt(c, a, ended, Di), TimesAt(c, a, ended, Slk)),
      c.all,
      FlappingAt(c, a, ended),
      c.inFlight + (set d | d in begun && d !in ended && Due(c, a, d) :: Key(d, a.msg.message)))
  }

  /** The cache after the alert, a function of the cache before it and not of the interleaving. */
  function Delivered(c: Cache, a: Attempt): Cache {
    Reached(c, a, ALL, ALL)
  }

  function DeliveredAll(c: Cache, attempts: seq<Attempt>): Cache {
    if attempts == [] then c
    else Delivered(DeliveredAll(c, attempts[..|attempts| - 1]), attempts[|attempts| - 1])
  }

  /**
   What an alert leaves: each destination that wanted it, could reserve it before any of the four
   began and accepted it has its entry set to the time of its own completion, or removed; all else
   is as before.
   */
  lemma DeliveredExactly(c: Cache, a: Attempt, d: Dest, m: string)
    ensures EntryOf(Delivered(c, a).sent.Get(d), m) ==
            if m == a.msg.message && d in a.msg.wanted && c.MayReserve(a.msg, d, a.start(d)) && d in a.accepting
            then (if a.msg.resolved then None else Some(a.done(d)))
            else EntryOf(c.sent.Get(d), m)
    ensures Delivered(c, a).all == c.all && Delivered(c, a).inFlight == c.inFlight
    ensures Delivered(c, a).flapping ==
            if Pd in a.msg.wanted && c.MayReserve(a.msg, Pd, a.start(Pd)) && Pd in a.accepting && !a.msg.resolved
            then c.flapping[FlapKey(a.msg.chain, a.msg.message) := a.done(Pd)] else c.flapping
  {
    match d case Pd => case Tg => case Di => case Slk =>
  }

  lemma ReachedParts(c: Cache, a: Attempt, begun: set<Dest>, ended: set<Dest>, dest: Dest)
    ensures Reached(c, a, begun, ended).sent.Get(dest) == TimesAt(c, a, ended, dest)
    ensures Key(dest, a.msg.message) in Reached(c, a, begun, ended).inFlight <==>
            Key(dest, a.msg.message) in c.inFlight || (dest in begun && dest !in ended && Due(c, a, dest))
  {
  }

  /** Whether a delivery reserves does not depend on how far the others are. */
  lemma BeginsAlone(c: Cache, a: Attempt, begun: set<Dest>, ended: set<Dest>, dest: Dest)
    requires ended <= begun && dest !in begun
    ensures Reached(c, a, begun, ended).MayReserve(a.msg, dest, a.start(dest)) == c.MayReserve(a.msg, dest, a.start(dest))
  {
    ReachedParts(c, a, begun, ended, dest);
  }

  lemma BeginReached(c: Cache, a: Attempt, begun: set<Dest>, ended: set<Dest>, dest: Dest)
    requires ended <= begun && dest !in begun
    ensures var s, s' := Reached(c, a, begun, ended), Reached(c, a, begun + {dest}, ended);
            s' == if Due(c, a, dest) then s.(inFlight := s.inFlight + {Key(dest, a.msg.message)}) else s
  {
    var s, s' := Reached(c, a, begun, ended), Reached(c, a, begun + {dest}, ended);
    assert s'.inFlight == if Due(c, a, dest) then s.inFlight + {Key(dest, a.msg.message)} else s.inFlight;
  }

  lemma EndReached(c: Cache, a: Attempt, begun: set<Dest>, ended: set<Dest>, dest: Dest)
    requires ended <= begun && dest in begun && dest !in ended
    ensures var s, s' := Reached(c, a, begun, ended), Reached(c, a, begun, ended + {dest});
            s' == if Due(c, a, dest) then s.Completed(a.msg, dest, dest in a.accepting, a.done(dest)) else s
  {
    var s, s' := Reached(c, a, begun, ended), Reached(c, a, begun, ended + {dest});
    ReachedParts(c, a, begun, ended, dest);
    assert s'.inFlight == if Due(c, a, dest) then s.inFlight - {Key(dest, a.msg.message)} else s.inFlight;
    match dest case Pd => case Tg => case Di => case Slk =>
  }

  lemma {:induction false} OneMoreMove(moves: seq<Move>, i: nat)
    requires InTurn(moves) && i < |moves|
    ensures var m, before, after := moves[i], moves[..i], moves[..i + 1];
            && MayMove(Begun(before), Ended(before), m)
            && Begun(after) == (if m.Begin? then Begun(before) + {m.dest} else Begun(before))
            && Ended(after) == (if m.End? then Ended(before) + {m.dest} else Ended(before))
  {
    assert moves[..i + 1] == moves[..i] + [moves[i]];
    if i < |moves| - 1 {
      OneMoreMove(moves[..|moves| - 1], i);
      assert moves[..|moves| - 1][..i] == moves[..i];
    }
  }

  method NotificationWorker(cache: AlarmCache, attempts: seq<Attempt>)
    requires forall i :: 0 <= i < |attempts| ==> attempts[i].Valid()
    modifies cache
    ensures cache.State() == DeliveredAll(old(cache.State()), attempts)
  {
    var i := 0;
    while i < |attempts|
      invariant i <= |attempts|
      invariant cache.State() == DeliveredAll(old(cache.State()), attempts[..i])
    {
      assert attempts[..i + 1][..i] == attempts[..i];
      DeliverAlert(cache, attempts[i]);
      i := i + 1;
    }
    assert attempts[..i] == attempts;
  }

  /** The deliveries that hold a reservation. */
  ghost predicate Holding(c: Cache, a: Attempt, begun: set<Dest>, ended: set<Dest>, held: set<Dest>) {
    forall d :: d in held <==> d in begun && d !in ended && Due(c, a, d)
  }

  /** One move of one delivery, from wherever the four deliveries are. */
  method Perform(
      cache: AlarmCache, a: Attempt, move: Move, held: set<Dest>,
      ghost c: Cache, ghost begun: set<Dest>, ghost ended: set<Dest>)
    returns (held': set<Dest>)
    requires ended <= begun && MayMove(begun, ended, move)
    requires cache.State() == Reached(c, a, begun, ended) && Holding(c, a, begun, ended, held)
    modifies cache
    ensures var begun' := if move.Begin? then begun + {move.dest} else begun;
            var ended' := if move.End? then ended + {move.dest} else ended;
            cache.State() == Reached(c, a, begun', ended') && Holding(c, a, begun', ended', held')
  {
    held' := held;
    if move.Begin? {
      BeginsAlone(c, a, begun, ended, move.dest);
      BeginReached(c, a, begun, ended, move.dest);
      if move.dest in a.msg.wanted {
        var ok := cache.ReserveDelivery(a.msg, move.dest, a.start(move.dest));
        if ok {
          held' := held + {move.dest};
        }
      }
    } else {
      EndReached(c, a, begun, ended, move.dest);
      if move.dest in held {
        cache.CompleteDelivery(a.msg, move.dest, move.dest in a.accepting, a.done(move.dest));
        held' := held - {move.dest};
      }
    }
  }

  lemma NothingBegun(c: Cache, a: Attempt)
    ensures Reached(c, a, {}, {}) == c
  {
    assert Reached(c, a, {}, {}).inFlight == c.inFlight;
  }

  /** The four deliveries of one alert at once: however their moves interleave, the cache ends the same. */
  method DeliverAlert(cache: AlarmCache, a: Attempt)
    requires a.Valid()
    modifies cache
    ensures cache.State() == Delivered(old(cache.State()), a)
  {
    ghost var c, begun, ended := cache.State(), {}, {};
    var held: set<Dest> := {};
    NothingBegun(c, a);
    for i := 0 to |a.moves|
      invariant begun == Begun(a.moves[..i]) && ended == Ended(a.moves[..i]) && ended <= begun
      invariant cache.State() == Reached(c, a, begun, ended) && Holding(c, a, begun, ended, held)
    {
      OneMoreMove(a.moves, i);
      held := Perform(cache, a, a.moves[i], held, c, begun, ended);
      begun, ended := Begun(a.moves[..i + 1]), Ended(a.moves[..i + 1]);
    }
    assert a.moves[..|a.moves|] == a.moves;
  }

  /**
   The PagerDuty delivery: the example key is never used, and one reservation covers at most two
   attempts, the second only when the first failed.
   */
  method NotifyPagerDuty(cache: AlarmCache, msg: AlertMsg, exampleKey: bool, accepts: seq<bool>, now: Time, done: Time)
    returns (attempts: nat)
    requires |accepts| == PAGERDUTY_ATTEMPTS
    modifies cache
    ensures var started := Pd in msg.wanted && !exampleKey && old(cache.State()).MayReserve(msg, Pd, now);
            && attempts == (if !started then 0 else if accepts[0] then 1 else 2)
            && cache.State() == (if started
                                 then old(cache.State()).Reserved(msg, Pd, now).Completed(msg, Pd, true in accepts, done)
                                 else old(cache.State()))
  {
    attempts := 0;
    if Pd !in msg.wanted || exampleKey {
      return;
    }
    var ok := cache.ReserveDelivery(msg, Pd, now);
    if !ok {
      return;
    }
    var accepted := false;
    while attempts < PAGERDUTY_ATTEMPTS && !accepted
      invariant attempts <= PAGERDUTY_ATTEMPTS
      invariant accepted ==> 0 < attempts && accepts[attempts - 1]
      invariant forall i :: 0 <= i < attempts && !(accepted && i == attempts - 1) ==> !accepts[i]
      decreases PAGERDUTY_ATTEMPTS - attempts
    {
      accepted := accepts[attempts];
      attempts := attempts + 1;
    }
    assert accepted == (true in accepts);
    cache.CompleteDelivery(msg, Pd, accepted, done);
  }

  /** What was emitted to a destination for a message: its kind, and whether it would be accepted. */
  datatype Emission = Emission(resolved: bool, accepted: bool)

  function Emitted(attempts: seq<Attempt>, key: Key): seq<Emission> {
    if attempts == [] then []
    else
      var last := attempts[|attempts| - 1];
      var before := Emitted(attempts[..|attempts| - 1], key);
      if last.msg.message == key.message && key.dest in last.msg.wanted
      then before + [Emission(last.msg.resolved, key.dest in last.accepting)]
      else before
  }

  /** The kinds accepted for a key: emissions that change what is sent, in order. */
  function Changes(sent: bool, emitted: seq<Emission>): (seq<bool>, bool) {
    if emitted == [] then ([], sent)
    else
      var (before, now) := Changes(sent, emitted[..|emitted| - 1]);
      var last := emitted[|emitted| - 1];
      if last.accepted && last.resolved == now then (before + [last.resolved], !now) else (before, now)
  }

  /** The kinds the destination accepts for the key as the worker goes through the attempts. */
  function AcceptedKinds(c: Cache, attempts: seq<Attempt>, key: Key): seq<bool> {
    if attempts == [] then []
    else
      var last := attempts[|attempts| - 1];
      var before := AcceptedKinds(c, attempts[..|attempts| - 1], key);
      var sent := DeliveredAll(c, attempts[..|attempts| - 1]).Sent(key.dest, key.message);
      var sent' := DeliveredAll(c, attempts).Sent(key.dest, key.message);
      if sent != sent' then before + [sent] else before
  }

  /** The attempt concerns the key, is due in a state where the key is sent or not, and is accepted. */
  predicate Changing(a: Attempt, key: Key, sent: bool) {
    && key.dest in a.msg.wanted && a.msg.message == key.message
    && key.dest in a.accepting && a.msg.resolved == sent
  }

  /** One alert changes a non-PagerDuty key exactly when it is wanted, of that message, due and accepted. */
  lemma DeliveredKey(c: Cache, a: Attempt, key: Key)
    requires key.dest != Pd && a.Valid() && c.inFlight == {}
    ensures Delivered(c, a).inFlight == {}
    ensures Delivered(c, a).Sent(key.dest, key.message) ==
            (if Changing(a, key, c.Sent(key.dest, key.message)) then !a.msg.resolved else c.Sent(key.dest, key.message))
  {
    ReachedParts(c, a, ALL, ALL, key.dest);
    match key.dest case Pd => case Tg => case Di => case Slk =>
  }

  /**
   For every destination but PagerDuty, what is accepted for a message is its emitted stream, in
   order, without what would not change the state or was not accepted.
   */
  lemma {:induction false} AcceptedAreChanges(c: Cache, attempts: seq<Attempt>, key: Key)
    requires key.dest != Pd && c.inFlight == {}
    requires forall i :: 0 <= i < |attempts| ==> attempts[i].Valid()
    ensures DeliveredAll(c, attempts).inFlight == {}
    ensures Changes(c.Sent(key.dest, key.message), Emitted(attempts, key)) ==
            (AcceptedKinds(c, attempts, key), DeliveredAll(c, attempts).Sent(key.dest, key.message))
  {
    if attempts != [] {
      var before, last := attempts[..|attempts| - 1], attempts[|attempts| - 1];
      AcceptedAreChanges(c, before, key);
      DeliveredKey(DeliveredAll(c, before), last, key);
      var emitted := Emitted(attempts, key);
      if emitted != Emitted(before, key) {
        assert emitted[..|emitted| - 1] == Emitted(before, key);
      }
    }
  }

  function KindsOf(emitted: seq<Emission>): (kinds: seq<bool>)
    ensures |kinds| == |emitted|
  {
    seq(|emitted|, i requires 0 <= i < |emitted| => emitted[i].resolved)
  }

  lemma KindsAppended(emitted: seq<Emission>, e: Emission)
    ensures KindsOf(emitted + [e]) == KindsOf(emitted) + [e.resolved]
  {
  }

  lemma {:induction false} AllChanges(sent: bool, emitted: seq<Emission>)
    requires Alternates(sent, KindsOf(emitted)) && forall i :: 0 <= i < |emitted| ==> emitted[i].accepted
    ensures Changes(sent, emitted) == (KindsOf(emitted), Turn(sent, KindsOf(emitted)))
  {
    var kinds := KindsOf(emitted);
    if emitted == [] {
      assert kinds == [];
    } else {
      var before := emitted[..|emitted| - 1];
      assert forall i :: 0 <= i < |before| ==> KindsOf(before)[i] == kinds[i];
      AllChanges(sent, before);
      assert kinds == KindsOf(before) + [emitted[|before|].resolved];
    }
  }

  /**
   While everything is accepted, an alternating emitted stream reaches every destination but
   PagerDuty whole and in order, and the alarm is left sent exactly when it ended with a trigger.
   */
  lemma AlternatingStreamIsDelivered(c: Cache, attempts: seq<Attempt>, key: Key)
    requires key.dest != Pd && c.inFlight == {}
    requires forall i :: 0 <= i < |attempts| ==> attempts[i].Valid()
    requires Alternates(c.Sent(key.dest, key.message), KindsOf(Emitted(attempts, key)))
    requires forall i :: 0 <= i < |Emitted(attempts, key)| ==> Emitted(attempts, key)[i].accepted
    ensures AcceptedKinds(c, attempts, key) == KindsOf(Emitted(attempts, key))
    ensures DeliveredAll(c, attempts).Sent(key.dest, key.message) ==
            Turn(c.Sent(key.dest, key.message), KindsOf(Emitted(attempts, key)))
  {
    AcceptedAreChanges(c, attempts, key);
    AllChanges(c.Sent(key.dest, key.message), Emitted(attempts, key));
  }

  datatype DashboardOp = Record(chain: string, message: string, resolved: bool, now: Time) | Clear(chain: string)

  function DashboardAfter(c: Cache, ops: seq<DashboardOp>): Cache {
    if ops == [] then c
    else
      var before := DashboardAfter(c, ops[..|ops| - 1]);
      match ops[|ops| - 1]
      case Record(chain, message, resolved, now) => before.Recorded(chain, message, resolved, now)
      case Clear(chain) => before.StallsCleared(chain)
  }

  /** The last word on a message was a trigger; clearing a chain's stalls is a word on its stalled alarms. */
  predicate LastIsTrigger(ops: seq<DashboardOp>, chain: string, message: string) {
    if ops == [] then false
    else
      match ops[|ops| - 1]
      case Record(c, m, resolved, _) =>
        if c == chain && m == message then !resolved else LastIsTrigger(ops[..|ops| - 1], chain, message)
      case Clear(c) =>
        if c == chain && STALLED_PREFIX <= message then false else LastIsTrigger(ops[..|ops| - 1], chain, message)
  }

  /** From a fresh start the dashboard shows a message exactly when the last word on it was a trigger. */
  lemma {:induction false} DashboardShowsOpenAlarms(ops: seq<DashboardOp>, chain: string, message: string)
    ensures message in DashboardAfter(EMPTY_CACHE, ops).OfChain(chain) <==> LastIsTrigger(ops, chain, message)
  {
    if ops != [] {
      DashboardShowsOpenAlarms(ops[..|ops| - 1], chain, message);
    }
  }
}
