/**
 The alarm cache: which alerts each destination has accepted, which deliveries are in flight,
 and what the dashboard shows.
 */
module Delivery {
  import opened Basics

  const FLAP_WINDOW := 5 * MINUTE
  const STALLED_PREFIX := "stalled: have not seen a new block on"

  /** `wanted` are the destinations enabled for the alert. */
  datatype AlertMsg = AlertMsg(wanted: set<Dest>, resolved: bool, chain: string, message: string)

  function EntryOf(times: Times, message: string): Option<Time> {
    if message in times then Some(times[message]) else None
  }

  /** One map of accepted triggers per destination. */
  datatype SentMaps = SentMaps(pd: Times, tg: Times, di: Times, slk: Times)
  {
    function Get(dest: Dest): Times {
      match dest case Pd => pd case Tg => tg case Di => di case Slk => slk
    }

    function Put(dest: Dest, times: Times): SentMaps {
      match dest
      case Pd => this.(pd := times)
      case Tg => this.(tg := times)
      case Di => this.(di := times)
      case Slk => this.(slk := times)
    }
  }

  datatype Key = Key(dest: Dest, message: string)

  datatype FlapKey = FlapKey(chain: string, message: string)

  datatype Cache = Cache(
    sent: SentMaps,
    all: map<string, Times>,
    flapping: map<FlapKey, Time>,
    inFlight: set<Key>)
  {
    /** The destination accepted a trigger for the message and no resolution since. */
    predicate Sent(dest: Dest, message: string) {
      message in sent.Get(dest) && sent.Get(dest)[message] != ZERO_TIME
    }

    predicate Flapping(chain: string, message: string, now: Time) {
      FlapKey(chain, message) in flapping && flapping[FlapKey(chain, message)] > now - FLAP_WINDOW
    }

    /** A delivery may start: not in flight, a trigger not yet accepted or a resolution of an accepted one. */
    predicate MayReserve(msg: AlertMsg, dest: Dest, now: Time) {
      && Key(dest, msg.message) !in inFlight
      && msg.resolved == Sent(dest, msg.message)
      && !(dest == Pd && !msg.resolved && Flapping(msg.chain, msg.message, now))
    }

    function Reserved(msg: AlertMsg, dest: Dest, now: Time): Cache {
      if MayReserve(msg, dest, now) then this.(inFlight := inFlight + {Key(dest, msg.message)}) else this
    }

    function Completed(msg: AlertMsg, dest: Dest, accepted: bool, now: Time): Cache {
      var freed := this.(inFlight := inFlight - {Key(dest, msg.message)});
      if !accepted then freed
      else if msg.resolved then freed.(sent := sent.Put(dest, sent.Get(dest) - {msg.message}))
      else freed.(sent := sent.Put(dest, sent.Get(dest)[msg.message := now]),
                  flapping := if dest == Pd then flapping[FlapKey(msg.chain, msg.message) := now] else flapping)
    }

    function OfChain(chain: string): Times {
      if chain in all then all[chain] else map[]
    }

    function Recorded(chain: string, message: string, resolved: bool, now: Time): Cache {
      this.(all := all[chain := if resolved then OfChain(chain) - {message} else OfChain(chain)[message := now]])
    }

    function StallsCleared(chain: string): Cache {
      if chain !in all then this
      else this.(all := all[chain := map m | m in all[chain] && !(STALLED_PREFIX <= m) :: all[chain][m]])
    }
  }

  const EMPTY_CACHE := Cache(SentMaps(map[], map[], map[], map[]), map[], map[], {})

  class AlarmCache {
    var sent: SentMaps
    var all: map<string, Times>
    var flapping: map<FlapKey, Time>
    var inFlight: set<Key>

    function State(): Cache
      reads this
    {
      Cache(sent, all, flapping, inFlight)
    }

    constructor (cache: Cache)
      ensures State() == cache
    {
      sent, all, flapping, inFlight := cache.sent, cache.all, cache.flapping, cache.inFlight;
    }

    method ReserveDelivery(msg: AlertMsg, dest: Dest, now: Time) returns (ok: bool)
      modifies this`inFlight
      ensures State() == old(State()).Reserved(msg, dest, now) && ok == old(State()).MayReserve(msg, dest, now)
      ensures ok <==>
              && Key(dest, msg.message) !in old(inFlight)
              && (msg.resolved <==> EntryOf(sent.Get(dest), msg.message) !in {None, Some(0)})
              && (dest == Pd && !msg.resolved && FlapKey(msg.chain, msg.message) in flapping ==>
                    now - flapping[FlapKey(msg.chain, msg.message)] >= 300_000_000_000)
      ensures inFlight == old(inFlight) + (if ok then {Key(dest, msg.message)} else {})
    {
      var times := sent.Get(dest);
      var key := Key(dest, msg.message);
      if key in inFlight {
        return false;
      }
      var known := msg.message in times && times[msg.message] != ZERO_TIME;
      if msg.resolved {
        if !known {
          return false;
        }
      } else if known {
        return false;
      }
      if dest == Pd && !msg.resolved {
        var flap := FlapKey(msg.chain, msg.message);
        if flap in flapping && flapping[flap] > now - FLAP_WINDOW {
          return false;
        }
      }
      inFlight := inFlight + {key};
      return true;
    }

    method CompleteDelivery(msg: AlertMsg, dest: Dest, accepted: bool, now: Time)
      modifies this`inFlight, this`sent, this`flapping
      ensures State() == old(State()).Completed(msg, dest, accepted, now)
      ensures inFlight == old(inFlight) - {Key(dest, msg.message)}
      ensures forall d: Dest, m: string :: EntryOf(sent.Get(d), m) ==
                if !accepted || d != dest || m != msg.message then EntryOf(old(sent).Get(d), m)
                else if msg.resolved then None else Some(now)
      ensures flapping == if accepted && !msg.resolved && dest == Pd
                          then old(flapping)[FlapKey(msg.chain, msg.message) := now] else old(flapping)
    {
      inFlight := inFlight - {Key(dest, msg.message)};
      if !accepted {
        return;
      }
      var times := sent.Get(dest);
      if msg.resolved {
        sent := sent.Put(dest, times - {msg.message});
        return;
      }
      sent := sent.Put(dest, times[msg.message := now]);
      if dest == Pd {
        flapping := flapping[FlapKey(msg.chain, msg.message) := now];
      }
    }

    method RecordDashboardAlarm(chain: string, message: string, resolved: bool, now: Time)
      modifies this`all
      ensures State() == old(State()).Recorded(chain, message, resolved, now) && all.Keys == old(all).Keys + {chain}
      ensures forall c: string, m: string :: EntryOf(State().OfChain(c), m) ==
                if c != chain || m != message then EntryOf(old(State()).OfChain(c), m)
                else if resolved then None else Some(now)
    {
      if chain !in all {
        all := all[chain := map[]];
      }
      if resolved {
        all := all[chain := all[chain] - {message}];
        return;
      }
      all := all[chain := all[chain][message := now]];
    }

    /** Drop every stalled-chain alarm of a chain, whatever order the messages come in. */
    method ClearNoBlocks(chain: string)
      modifies this`all
      ensures State() == old(State()).StallsCleared(chain) && all.Keys == old(all).Keys
      ensures forall c: string, m: string :: EntryOf(State().OfChain(c), m) ==
                if c == chain && "stalled: have not seen a new block on" <= m then None
                else EntryOf(old(State()).OfChain(c), m)
    {
      if chain !in all {
        return;
      }
      var before := all[chain];
      var left := before.Keys;
      while left != {}
        invariant left <= before.Keys && chain in all
        invariant all == old(all)[chain := all[chain]]
        invariant all[chain] == map m | m in before && (m in left || !(STALLED_PREFIX <= m)) :: before[m]
        decreases |left|
      {
        var alarm :| alarm in left;
        left := left - {alarm};
        if STALLED_PREFIX <= alarm {
          all := all[chain := all[chain] - {alarm}];
        }
      }
      assert all[chain] == old(State()).StallsCleared(chain).all[chain];
    }
  }
}
