/** What a restart preserves, from the running process through the state file to the next process. */
module RestartEquivalence {
  import opened Basics
  import opened StateDocument
  import opened Delivery
  import opened Restart
  import Checkpoint
  import CheckpointSafety
  import DeliveryProtocol

  /** `renewed` is configured like `r`, as a new process finds it before restoring. */
  predicate Reconfigured(r: Runtime, renewed: Runtime) {
    && renewed.chains.Keys == r.chains.Keys
    && renewed.cache == EMPTY_CACHE
    && (forall c :: c in r.chains ==>
          && |renewed.chains[c].nodes| == |r.chains[c].nodes| && !renewed.chains[c].noNodes
          && (forall i :: 0 <= i < |r.chains[c].nodes| ==>
                renewed.chains[c].nodes[i].url == r.chains[c].nodes[i].url && !renewed.chains[c].nodes[i].down))
  }

  predicate DistinctUrls(nodes: seq<Node>) {
    forall i, j :: 0 <= i < j < |nodes| ==> nodes[i].url != nodes[j].url
  }

  /** Node j is the last one down among those with the URL. */
  predicate LastDown(nodes: seq<Node>, url: string, j: int) {
    && 0 <= j < |nodes| && nodes[j].down && nodes[j].url == url
    && (forall k :: j < k < |nodes| ==> !(nodes[k].down && nodes[k].url == url))
  }

  lemma {:induction false} DownTimesAt(nodes: seq<Node>, url: string) returns (j: int)
    ensures url in DownTimes(nodes) ==> LastDown(nodes, url, j) && DownTimes(nodes)[url] == nodes[j].downSince
    ensures url !in DownTimes(nodes) ==> forall k :: 0 <= k < |nodes| ==> !(nodes[k].down && nodes[k].url == url)
  {
    j := -1;
    if nodes != [] {
      var n := |nodes| - 1;
      if nodes[n].down && nodes[n].url == url {
        j := n;
      } else {
        j := DownTimesAt(nodes[..n], url);
      }
    }
  }

  /** The time a saved document has for a node of a chain, if any. */
  function SavedDown(saved: SavedState, c: string, url: string): Option<Time> {
    if saved.nodesDown == None || c !in saved.nodesDown.value then None
    else
      var t := EntryOf(saved.nodesDown.value[c], url);
      if t == Some(0) then None else t
  }

  /**
   What a restore makes of a chain, from any document: the saved window if there is one, every node
   with a saved time down since then, and the chain without nodes when the document has a section
   on down nodes and all of its nodes are down now.
   */
  lemma ChainRestoredExactly(r: Runtime, saved: SavedState, now: Time, c: string)
    requires c in r.chains
    ensures c in RestoredOf(r, saved, now).chains
    ensures var chain, back := r.chains[c], RestoredOf(r, saved, now).chains[c];
            && back.blocks == (if saved.blocks != None && c in saved.blocks.value then saved.blocks.value[c] else chain.blocks)
            && |back.nodes| == |chain.nodes|
            && (forall i :: 0 <= i < |chain.nodes| ==>
                  var t := SavedDown(saved, c, chain.nodes[i].url);
                  back.nodes[i] == if t == None then chain.nodes[i] else Node(chain.nodes[i].url, true, true, t.value))
            && (back.noNodes <==>
                chain.noNodes || (saved.nodesDown != None && forall i :: 0 <= i < |back.nodes| ==> back.nodes[i].down))
  {
  }

  /** What a restore makes of the alarms: each section the document has, less what is a day old; the others stay. */
  lemma AlarmsRestoredExactly(r: Runtime, saved: SavedState, now: Time)
    ensures var before, back := r.cache, RestoredOf(r, saved, now).cache;
            && back.flapping == before.flapping && back.inFlight == before.inFlight
            && match saved.alarms
               case None => back == before
               case Some(a) =>
                 && back.sent.pd == (if a.sentPd == None then before.sent.pd else Young(a.sentPd.value, now))
                 && back.sent.tg == (if a.sentTg == None then before.sent.tg else Young(a.sentTg.value, now))
                 && back.sent.di == (if a.sentDi == None then before.sent.di else Young(a.sentDi.value, now))
                 && back.sent.slk == (if a.sentSlk == None then before.sent.slk else Young(a.sentSlk.value, now))
                 && (if a.all == None then back.all == before.all
                     else back.all.Keys == a.all.value.Keys
                          && forall c :: c in back.all ==> back.all[c] == Young(a.all.value[c], now))
  {
  }

  /** The saved document has a section on down nodes, with exactly the chains that have one and their last down times. */
  lemma DownSavedExactly(r: Runtime, c: string, url: string)
    ensures var down := SnapshotOf(r).nodesDown;
            && down != None
            && (c in down.value <==> c in r.chains && exists i :: 0 <= i < |r.chains[c].nodes| && r.chains[c].nodes[i].down)
            && (c in down.value && url in down.value[c] ==>
                exists j :: LastDown(r.chains[c].nodes, url, j) && down.value[c][url] == r.chains[c].nodes[j].downSince)
            && (c in r.chains && (exists j :: LastDown(r.chains[c].nodes, url, j)) ==> c in down.value && url in down.value[c])
  {
    if c in r.chains {
      var nodes := r.chains[c].nodes;
      var j := DownTimesAt(nodes, url);
      SomeDown(nodes);
      if i :| LastDown(nodes, url, i) {
        assert url in DownTimes(nodes);
      }
    }
  }

  lemma {:induction false} SomeDown(nodes: seq<Node>)
    ensures DownTimes(nodes) == map[] <==> forall i :: 0 <= i < |nodes| ==> !nodes[i].down
  {
    if nodes != [] {
      SomeDown(nodes[..|nodes| - 1]);
      if nodes[|nodes| - 1].down {
        assert nodes[|nodes| - 1].url in DownTimes(nodes);
      }
    }
  }

  /**
   A node comes back down exactly when some node of its URL was down and the last such had a
   time, and it comes back with that time.
   */
  lemma NodeComesBack(r: Runtime, renewed: Runtime, now: Time, c: string, i: nat)
    requires Reconfigured(r, renewed) && c in r.chains && i < |r.chains[c].nodes|
    ensures var nodes := r.chains[c].nodes;
            var back := RestoredOf(renewed, SnapshotOf(r), now).chains[c].nodes[i];
            && (back.down <==> exists j :: LastDown(nodes, nodes[i].url, j) && nodes[j].downSince != ZERO_TIME)
            && (forall j :: back.down && LastDown(nodes, nodes[i].url, j) ==> back.downSince == nodes[j].downSince)
            && (if back.down then back.wasDown else back == renewed.chains[c].nodes[i])
  {
    var nodes := r.chains[c].nodes;
    var j := DownTimesAt(nodes, nodes[i].url);
    if nodes[i].url in DownTimes(nodes) {
      assert c in SnapshotOf(r).nodesDown.value;
    }
  }

  /** A node that was up comes back down because another entry of its URL was down. */
  lemma SharedUrlBringsDown(now: Time)
    ensures var up, down := Node("u", false, false, ZERO_TIME), Node("u", true, true, HOUR);
            var r := Runtime(map["c" := Chain([], [up, down], false)], EMPTY_CACHE);
            var renewed := Runtime(map["c" := Chain([], [up, up], false)], EMPTY_CACHE);
            && Reconfigured(r, renewed)
            && RestoredOf(renewed, SnapshotOf(r), now).chains["c"].nodes[0] == down
  {
    var up, down := Node("u", false, false, ZERO_TIME), Node("u", true, true, HOUR);
    var nodes := [up, down];
    var r := Runtime(map["c" := Chain([], nodes, false)], EMPTY_CACHE);
    var renewed := Runtime(map["c" := Chain([], [up, up], false)], EMPTY_CACHE);
    assert LastDown(nodes, nodes[0].url, 1);
    NodeComesBack(r, renewed, now, "c", 0);
  }

  /** With distinct URLs: the same nodes are down since the same time, where there was a time. */
  lemma NodesComeBack(r: Runtime, renewed: Runtime, now: Time, c: string, i: nat)
    requires Reconfigured(r, renewed) && c in r.chains && i < |r.chains[c].nodes|
    requires DistinctUrls(r.chains[c].nodes)
    ensures var node := r.chains[c].nodes[i];
            var back := RestoredOf(renewed, SnapshotOf(r), now).chains[c].nodes[i];
            && (back.down <==> node.down && node.downSince != ZERO_TIME)
            && (back.down ==> back.downSince == node.downSince)
  {
    NodeComesBack(r, renewed, now, c, i);
    var nodes := r.chains[c].nodes;
    assert forall j :: LastDown(nodes, nodes[i].url, j) ==> j == i;
    assert nodes[i].down ==> LastDown(nodes, nodes[i].url, i);
  }

  lemma BlocksComeBack(r: Runtime, renewed: Runtime, now: Time, c: string)
    requires Reconfigured(r, renewed) && c in r.chains
    ensures RestoredOf(renewed, SnapshotOf(r), now).chains[c].blocks == r.chains[c].blocks
  {
  }

  /** The destination accepted the trigger a day or more ago. */
  predicate Stale(c: Cache, dest: Dest, message: string, now: Time) {
    c.Sent(dest, message) && now - c.sent.Get(dest)[message] >= STALE_AFTER
  }

  lemma SentComesBack(r: Runtime, renewed: Runtime, now: Time, dest: Dest, message: string)
    requires Reconfigured(r, renewed)
    ensures var back := RestoredOf(renewed, SnapshotOf(r), now).cache;
            && back.sent.Get(dest) == Young(r.cache.sent.Get(dest), now)
            && back.all == (map c | c in r.cache.all :: Young(r.cache.all[c], now))
            && back.Sent(dest, message) == (r.cache.Sent(dest, message) && !Stale(r.cache, dest, message, now))
  {
    match dest case Pd => case Tg => case Di => case Slk =>
  }

  /** Neither a stale alarm nor a PagerDuty trigger that only the flap window holds back. */
  predicate Undisturbed(c: Cache, msg: AlertMsg, dest: Dest, restored: Time, now: Time) {
    && !Stale(c, dest, msg.message, restored)
    && !(dest == Pd && !msg.resolved && !c.Sent(dest, msg.message) && c.Flapping(msg.chain, msg.message, now))
  }

  /**
   After a drained shutdown and a restart, whether an alert may be sent is what it would have
   been without the restart - except exactly for alarms accepted a day or more ago, and for
   PagerDuty triggers that only the flap window was holding back.
   */
  lemma DecisionsComeBack(r: Runtime, renewed: Runtime, restored: Time, msg: AlertMsg, dest: Dest, now: Time)
    requires Reconfigured(r, renewed) && r.cache.inFlight == {}
    ensures Undisturbed(r.cache, msg, dest, restored, now) <==>
            RestoredOf(renewed, SnapshotOf(r), restored).cache.MayReserve(msg, dest, now) ==
            r.cache.MayReserve(msg, dest, now)
  {
    SentComesBack(r, renewed, restored, dest, msg.message);
  }

  /** A PagerDuty trigger held back a minute after the last one goes out at once after a restart. */
  lemma RestartForgetsFlap()
    ensures var r := Runtime(map[], EMPTY_CACHE.(flapping := map[FlapKey("c", "m") := HOUR]));
            var msg, now := AlertMsg({Pd}, false, "c", "m"), HOUR + MINUTE;
            && !r.cache.MayReserve(msg, Pd, now)
            && RestoredOf(Runtime(map[], EMPTY_CACHE), SnapshotOf(r), now).cache.MayReserve(msg, Pd, now)
  {
    var r := Runtime(map[], EMPTY_CACHE.(flapping := map[FlapKey("c", "m") := HOUR]));
    var msg, now := AlertMsg({Pd}, false, "c", "m"), HOUR + MINUTE;
    DecisionsComeBack(r, Runtime(map[], EMPTY_CACHE), now, msg, Pd, now);
  }

  /** A trigger accepted a day ago is sent again after a restart. */
  lemma RestartForgetsOldAlarm()
    ensures var r := Runtime(map[], EMPTY_CACHE.(sent := SentMaps(map[], map["m" := HOUR], map[], map[])));
            var msg, now := AlertMsg({Tg}, false, "c", "m"), HOUR + STALE_AFTER;
            && !r.cache.MayReserve(msg, Tg, now)
            && RestoredOf(Runtime(map[], EMPTY_CACHE), SnapshotOf(r), now).cache.MayReserve(msg, Tg, now)
  {
    var r := Runtime(map[], EMPTY_CACHE.(sent := SentMaps(map[], map["m" := HOUR], map[], map[])));
    var msg, now := AlertMsg({Tg}, false, "c", "m"), HOUR + STALE_AFTER;
    DecisionsComeBack(r, Runtime(map[], EMPTY_CACHE), now, msg, Tg, now);
  }

  /** Once no sender is inside a delivery nothing is reserved: the state a drained shutdown saves. */
  lemma DrainedHoldsNothing(states: seq<DeliveryProtocol.System>, events: seq<DeliveryProtocol.Event>, k: nat)
    requires DeliveryProtocol.IsRun(states, events) && k < |states| && DeliveryProtocol.Initial(states[0])
    requires states[k].holders == map[]
    ensures states[k].cache.inFlight == {}
  {
    DeliveryProtocol.RunSound(states, events, k);
  }

  /** What a restart at time `restored` makes of the running state `r`. */
  ghost predicate Preserved(r: Runtime, back: Runtime, restored: Time) {
    && back.chains.Keys == r.chains.Keys
    && (forall c :: c in r.chains ==>
          && back.chains[c].blocks == r.chains[c].blocks
          && |back.chains[c].nodes| == |r.chains[c].nodes|
          && (DistinctUrls(r.chains[c].nodes) ==> SameDown(r.chains[c].nodes, back.chains[c].nodes))
          && (back.chains[c].noNodes <==> forall i :: 0 <= i < |back.chains[c].nodes| ==> back.chains[c].nodes[i].down))
    && (forall dest: Dest :: back.cache.sent.Get(dest) == Young(r.cache.sent.Get(dest), restored))
    && back.cache.all == (map c | c in r.cache.all :: Young(r.cache.all[c], restored))
    && (forall msg: AlertMsg, dest: Dest, now: Time ::
          Undisturbed(r.cache, msg, dest, restored, now) <==>
          back.cache.MayReserve(msg, dest, now) == r.cache.MayReserve(msg, dest, now))
  }

  /** The same nodes are down, since the same times, where there was a time. */
  ghost predicate SameDown(nodes: seq<Node>, back: seq<Node>)
    requires |back| == |nodes|
  {
    forall i :: 0 <= i < |nodes| ==>
      && (back[i].down <==> nodes[i].down && nodes[i].downSince != ZERO_TIME)
      && (back[i].down ==> back[i].downSince == nodes[i].downSince)
  }

  lemma ChainPreserved(r: Runtime, renewed: Runtime, restored: Time, c: string)
    requires Reconfigured(r, renewed) && c in r.chains
    ensures var back := RestoredOf(renewed, SnapshotOf(r), restored);
            && c in back.chains && back.chains[c].blocks == r.chains[c].blocks
            && |back.chains[c].nodes| == |r.chains[c].nodes|
            && (DistinctUrls(r.chains[c].nodes) ==> SameDown(r.chains[c].nodes, back.chains[c].nodes))
            && (back.chains[c].noNodes <==> forall i :: 0 <= i < |back.chains[c].nodes| ==> back.chains[c].nodes[i].down)
  {
    ChainRestoredExactly(renewed, SnapshotOf(r), restored, c);
    BlocksComeBack(r, renewed, restored, c);
    if DistinctUrls(r.chains[c].nodes) {
      forall i | 0 <= i < |r.chains[c].nodes| {
        NodesComeBack(r, renewed, restored, c, i);
      }
    }
  }

  lemma RestorePreserves(r: Runtime, renewed: Runtime, restored: Time)
    requires Reconfigured(r, renewed) && r.cache.inFlight == {}
    ensures Preserved(r, RestoredOf(renewed, SnapshotOf(r), restored), restored)
  {
    forall c | c in r.chains {
      ChainPreserved(r, renewed, restored, c);
    }
    forall dest: Dest {
      SentComesBack(r, renewed, restored, dest, "");
    }
    SentComesBack(r, renewed, restored, Pd, "");
    forall msg: AlertMsg, dest: Dest, now: Time {
      DecisionsComeBack(r, renewed, restored, msg, dest, now);
    }
  }

  /**
   The whole way round: after a checkpoint of the drained state that reported success, any kills
   and power failures, a load and a restore, block windows, down nodes, sent alarms and dashboards
   are as before, less what is a day old, and decisions change only where `DecisionsComeBack` says.
   */
  lemma RestartPreserves(
      codec: Codec, states: seq<Checkpoint.System>, events: seq<Checkpoint.Event>, known: seq<SavedState>, i: nat, k: nat,
      r: Runtime, renewed: Runtime, restored: Time, backupFails: bool)
    requires codec.Lawful() && CheckpointSafety.UndisturbedRun(codec, states, events) && i < k < |states|
    requires CheckpointSafety.Starts(codec, states[0], known)
    requires CheckpointSafety.Acknowledges(codec, states[i], events[i], states[i + 1], SnapshotOf(r))
    requires forall m :: i < m < k ==> !events[m].Begin?
    requires Reconfigured(r, renewed) && r.cache.inFlight == {}
    ensures var loaded := Checkpoint.LoadReading(codec, states[k].disk, false, backupFails);
            loaded.Loaded? && Preserved(r, RestoredOf(renewed, loaded.state, restored), restored)
  {
    CheckpointSafety.AcknowledgedLoadsExactly(codec, states, events, known, SnapshotOf(r), i, k, false, backupFails);
    RestorePreserves(r, renewed, restored);
  }
}
