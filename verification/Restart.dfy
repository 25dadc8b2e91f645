/** Saving durable state at shutdown and restoring it into the configuration of the next process. */
module Restart {
  import opened Basics
  import opened StateDocument
  import opened Delivery

  const STALE_AFTER := 24 * HOUR

  datatype Node = Node(url: string, down: bool, wasDown: bool, downSince: Time)

  datatype Chain = Chain(blocks: seq<int>, nodes: seq<Node>, noNodes: bool)

  datatype Runtime = Runtime(chains: map<string, Chain>, cache: Cache)

  /** The down nodes by URL; of nodes that share a URL the last down one counts. */
  function DownTimes(nodes: seq<Node>): Times {
    if nodes == [] then map[]
    else
      var before := DownTimes(nodes[..|nodes| - 1]);
      var last := nodes[|nodes| - 1];
      if last.down then before[last.url := last.downSince] else before
  }

  function SnapshotOf(r: Runtime): SavedState {
    SavedState(
      Some(SavedAlarms(Some(r.cache.sent.pd), Some(r.cache.sent.tg), Some(r.cache.sent.di), Some(r.cache.sent.slk),
                       Some(r.cache.all))),
      Some(map c | c in r.chains :: r.chains[c].blocks),
      Some(map c | c in r.chains && DownTimes(r.chains[c].nodes) != map[] :: DownTimes(r.chains[c].nodes)))
  }

  /** The alarms younger than a day. */
  function Young(times: Times, now: Time): Times {
    map m | m in times && now - times[m] < STALE_AFTER :: times[m]
  }

  function RestoredNode(node: Node, times: Times): Node {
    if node.url in times && times[node.url] != ZERO_TIME then Node(node.url, true, true, times[node.url]) else node
  }

  function RestoredNodes(nodes: seq<Node>, times: Times): seq<Node> {
    seq(|nodes|, i requires 0 <= i < |nodes| => RestoredNode(nodes[i], times))
  }

  predicate AllDown(nodes: seq<Node>) {
    forall i :: 0 <= i < |nodes| ==> nodes[i].down
  }

  /** The three passes of a restore over the chains: windows, down nodes, chains without nodes. */
  function WithBlocks(chains: map<string, Chain>, blocks: map<string, seq<int>>): map<string, Chain> {
    map c | c in chains :: if c in blocks then chains[c].(blocks := blocks[c]) else chains[c]
  }

  function WithDown(chains: map<string, Chain>, nodesDown: map<string, Times>): map<string, Chain> {
    map c | c in chains ::
      if c in nodesDown then chains[c].(nodes := RestoredNodes(chains[c].nodes, nodesDown[c])) else chains[c]
  }

  function WithNoNodes(chains: map<string, Chain>): map<string, Chain> {
    map c | c in chains :: chains[c].(noNodes := chains[c].noNodes || AllDown(chains[c].nodes))
  }

  function RestoredChains(chains: map<string, Chain>, saved: SavedState): map<string, Chain> {
    var windows := if saved.blocks.Some? then WithBlocks(chains, saved.blocks.value) else chains;
    if saved.nodesDown.None? then windows else WithNoNodes(WithDown(windows, saved.nodesDown.value))
  }

  function RestoredTimes(times: Times, saved: Option<Times>, now: Time): Times {
    if saved.Some? then Young(saved.value, now) else times
  }

  function RestoredCache(c: Cache, saved: Option<SavedAlarms>, now: Time): Cache {
    if saved.None? then c
    else
      var a := saved.value;
      c.(sent := SentMaps(RestoredTimes(c.sent.pd, a.sentPd, now), RestoredTimes(c.sent.tg, a.sentTg, now),
                          RestoredTimes(c.sent.di, a.sentDi, now), RestoredTimes(c.sent.slk, a.sentSlk, now)),
         all := if a.all.Some? then map c | c in a.all.value :: Young(a.all.value[c], now) else c.all)
  }

  function RestoredOf(r: Runtime, saved: SavedState, now: Time): Runtime {
    Runtime(RestoredChains(r.chains, saved), RestoredCache(r.cache, saved.alarms, now))
  }

  /** Delete the alarms that are a day old or older, in whatever order they come. */
  method ClearStale(alarms: Times, now: Time) returns (kept: Times)
    ensures kept == Young(alarms, now)
    ensures forall m :: EntryOf(kept, m) ==
              if m in alarms && now - alarms[m] < 86_400_000_000_000 then Some(alarms[m]) else None
  {
    kept := alarms;
    var left := alarms.Keys;
    while left != {}
      invariant left <= alarms.Keys
      invariant kept == map m | m in alarms && (m in left || now - alarms[m] < STALE_AFTER) :: alarms[m]
      decreases |left|
    {
      var k :| k in left;
      left := left - {k};
      if now - kept[k] >= STALE_AFTER {
        kept := kept - {k};
      }
    }
  }

  class Config {
    var chains: map<string, Chain>
    const alarms: AlarmCache

    function State(): Runtime
      reads this, alarms
    {
      Runtime(chains, alarms.State())
    }

    constructor (chains: map<string, Chain>, alarms: AlarmCache)
      ensures this.chains == chains && this.alarms == alarms
    {
      this.chains, this.alarms := chains, alarms;
    }

    /** Add the down nodes of one chain, if any, to the saved ones. */
    method AddDown(saved: map<string, Times>, name: string, nodes: seq<Node>) returns (nodesDown: map<string, Times>)
      requires name !in saved
      ensures nodesDown == if DownTimes(nodes) == map[] then saved else saved[name := DownTimes(nodes)]
    {
      nodesDown := saved;
      for i := 0 to |nodes|
        invariant nodesDown == if DownTimes(nodes[..i]) == map[] then saved else saved[name := DownTimes(nodes[..i])]
      {
        assert nodes[..i + 1][..i] == nodes[..i] && nodes[..i + 1][i] == nodes[i];
        if nodes[i].down {
          assert nodes[i].url in DownTimes(nodes[..i + 1]);
          if name !in nodesDown {
            nodesDown := nodesDown[name := map[]];
          }
          nodesDown := nodesDown[name := nodesDown[name][nodes[i].url := nodes[i].downSince]];
        }
      }
      assert nodes[..|nodes|] == nodes;
    }

    method SnapshotSavedState() returns (saved: SavedState)
      ensures saved == SnapshotOf(State())
      ensures saved.alarms == Some(SavedAlarms(Some(alarms.sent.pd), Some(alarms.sent.tg), Some(alarms.sent.di),
                                               Some(alarms.sent.slk), Some(alarms.all)))
    {
      var blocks: map<string, seq<int>> := map[];
      var nodesDown: map<string, Times> := map[];
      var left := chains.Keys;
      while left != {}
        invariant left <= chains.Keys
        invariant blocks.Keys == chains.Keys - left && nodesDown.Keys <= chains.Keys - left
        invariant forall c :: c in blocks ==> blocks[c] == chains[c].blocks
        invariant forall c :: c in chains && c !in left && DownTimes(chains[c].nodes) != map[] ==> c in nodesDown
        invariant forall c :: c in nodesDown ==> nodesDown[c] == DownTimes(chains[c].nodes) != map[]
        decreases |left|
      {
        var name :| name in left;
        left := left - {name};
        blocks := blocks[name := chains[name].blocks];
        nodesDown := AddDown(nodesDown, name, chains[name].nodes);
      }
      assert blocks == SnapshotOf(State()).blocks.value && nodesDown == SnapshotOf(State()).nodesDown.value;
      var clone := alarms.sent;
      saved := SavedState(
        Some(SavedAlarms(Some(clone.pd), Some(clone.tg), Some(clone.di), Some(clone.slk), Some(alarms.all))),
        Some(blocks), Some(nodesDown));
    }

    method RestoreBlocks(blocks: map<string, seq<int>>)
      modifies this`chains
      ensures chains == WithBlocks(old(chains), blocks)
    {
      var left := blocks.Keys;
      while left != {}
        invariant left <= blocks.Keys
        invariant chains.Keys == old(chains).Keys
        invariant forall c :: c in chains ==>
                    chains[c] == if c in left then old(chains)[c] else WithBlocks(old(chains), blocks)[c]
        decreases |left|
      {
        var name :| name in left;
        left := left - {name};
        if name in chains {
          chains := chains[name := chains[name].(blocks := blocks[name])];
        }
      }
    }

    method RestoreAlarms(saved: SavedAlarms, now: Time)
      modifies alarms
      ensures alarms.State() == RestoredCache(old(alarms.State()), Some(saved), now)
    {
      if saved.sentTg.Some? {
        var kept := ClearStale(saved.sentTg.value, now);
        alarms.sent := alarms.sent.(tg := kept);
      }
      if saved.sentPd.Some? {
        var kept := ClearStale(saved.sentPd.value, now);
        alarms.sent := alarms.sent.(pd := kept);
      }
      if saved.sentDi.Some? {
        var kept := ClearStale(saved.sentDi.value, now);
        alarms.sent := alarms.sent.(di := kept);
      }
      if saved.sentSlk.Some? {
        var kept := ClearStale(saved.sentSlk.value, now);
        alarms.sent := alarms.sent.(slk := kept);
      }
      if saved.all.Some? {
        alarms.all := ClearAllStale(saved.all.value, now);
      }
    }

    /** Mark down every node with this URL. */
    method MarkDown(nodes: seq<Node>, url: string, since: Time) returns (marked: seq<Node>)
      ensures |marked| == |nodes|
      ensures forall i :: 0 <= i < |nodes| ==>
                marked[i] == if nodes[i].url == url then Node(url, true, true, since) else nodes[i]
    {
      marked := nodes;
      for i := 0 to |nodes|
        invariant |marked| == |nodes|
        invariant forall j :: i <= j < |nodes| ==> marked[j] == nodes[j]
        invariant forall j :: 0 <= j < i ==>
                    marked[j] == if nodes[j].url == url then Node(url, true, true, since) else nodes[j]
      {
        if marked[i].url == url {
          marked := marked[i := marked[i].(down := true, wasDown := true, downSince := since)];
        }
      }
    }

    /** Mark the nodes of one chain down whose URL was saved with a time. */
    method RestoreDown(nodes: seq<Node>, times: Times) returns (restored: seq<Node>)
      ensures restored == RestoredNodes(nodes, times)
    {
      restored := nodes;
      var left := times.Keys;
      while left != {}
        invariant left <= times.Keys && |restored| == |nodes|
        invariant forall i :: 0 <= i < |nodes| ==>
                    restored[i] == RestoredNode(nodes[i], times - left)
        decreases |left|
      {
        var url :| url in left;
        left := left - {url};
        if times[url] == ZERO_TIME {
          continue;
        }
        restored := MarkDown(restored, url, times[url]);
      }
      assert times - left == times;
    }

    method RestoreNodes(nodesDown: map<string, Times>)
      modifies this`chains
      ensures chains == WithDown(old(chains), nodesDown)
    {
      var left := nodesDown.Keys;
      while left != {}
        invariant left <= nodesDown.Keys
        invariant chains.Keys == old(chains).Keys
        invariant forall c :: c in chains ==>
                    chains[c] == if c in left then old(chains)[c] else WithDown(old(chains), nodesDown)[c]
        decreases |left|
      {
        var name :| name in left;
        left := left - {name};
        if name in chains {
          var restored := RestoreDown(chains[name].nodes, nodesDown[name]);
          chains := chains[name := chains[name].(nodes := restored)];
        }
      }
    }

    /** A chain all of whose nodes are down, or that has none, is marked as having no nodes. */
    method MarkNoNodes()
      modifies this`chains
      ensures chains == WithNoNodes(old(chains))
    {
      var left := chains.Keys;
      while left != {}
        invariant left <= old(chains).Keys
        invariant chains.Keys == old(chains).Keys
        invariant forall c :: c in chains ==>
                    chains[c] == if c in left then old(chains)[c] else WithNoNodes(old(chains))[c]
        decreases |left|
      {
        var name :| name in left;
        left := left - {name};
        var downCount := CountDown(chains[name].nodes);
        if downCount == |chains[name].nodes| {
          chains := chains[name := chains[name].(noNodes := true)];
        }
      }
    }

    method RestoreSavedState(saved: SavedState, now: Time)
      modifies this`chains, alarms
      ensures State() == RestoredOf(old(State()), saved, now)
    {
      if saved.blocks.Some? {
        RestoreBlocks(saved.blocks.value);
      }
      if saved.alarms.Some? {
        RestoreAlarms(saved.alarms.value, now);
      }
      if saved.nodesDown.None? {
        return;
      }
      RestoreNodes(saved.nodesDown.value);
      MarkNoNodes();
    }
  }

  method ClearAllStale(all: map<string, Times>, now: Time) returns (kept: map<string, Times>)
    ensures kept == map c | c in all :: Young(all[c], now)
  {
    kept := all;
    var left := all.Keys;
    while left != {}
      invariant left <= all.Keys
      invariant kept == map c | c in all :: if c in left then all[c] else Young(all[c], now)
      decreases |left|
    {
      var c :| c in left;
      left := left - {c};
      var young := ClearStale(kept[c], now);
      kept := kept[c := young];
    }
  }

  method CountDown(nodes: seq<Node>) returns (downCount: nat)
    ensures downCount <= |nodes| && (downCount == |nodes| <==> AllDown(nodes))
  {
    downCount := 0;
    for i := 0 to |nodes|
      invariant downCount <= i && (downCount == i <==> AllDown(nodes[..i]))
    {
      assert nodes[..i + 1] == nodes[..i] + [nodes[i]];
      if nodes[i].down {
        downCount := downCount + 1;
      }
    }
    assert nodes[..|nodes|] == nodes;
  }
}
