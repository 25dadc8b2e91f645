/** Choosing an RPC endpoint: an ordered pass over the configured nodes, with a public fallback. */
module Endpoints {
  import opened Basics

  /** January 1970, to which a healthy probe resets the down time. */
  const UNIX_EPOCH: Time := 62_135_596_800 * SECOND

  datatype Node = Node(url: string, alertIfDown: bool, down: bool, wasDown: bool, syncing: bool, downSince: Time)

  /** How trying an endpoint comes out. */
  datatype Probe = BadUrl | NoConnection | NoStatus | WrongNetwork | CatchingUp | Healthy

  function MarkedDown(n: Node, probe: Probe, now: Time): Node {
    var went := if n.down then n else n.(down := true, downSince := now);
    went.(syncing := probe.CatchingUp?)
  }

  predicate AnyUp(nodes: seq<Node>) {
    exists i :: 0 <= i < |nodes| && !nodes[i].down
  }

  /** A pass tries the nodes that are up, or all of them when none is. */
  predicate Tried(nodes: seq<Node>, i: nat)
    requires i < |nodes|
  {
    AnyUp(nodes) ==> !nodes[i].down
  }

  predicate Usable(nodes: seq<Node>, probes: seq<Probe>, i: nat)
    requires |probes| == |nodes| && i < |nodes|
  {
    Tried(nodes, i) && probes[i].Healthy?
  }

  /** Node `i` is the first in order that is tried and healthy. */
  predicate IsFirst(nodes: seq<Node>, probes: seq<Probe>, i: nat)
    requires |probes| == |nodes|
  {
    i < |nodes| && Usable(nodes, probes, i) && forall j :: 0 <= j < i ==> !Usable(nodes, probes, j)
  }

  /** The nodes after a pass that stopped before `stop`: those tried are down, with an earlier down time kept. */
  predicate IsPass(nodes: seq<Node>, probes: seq<Probe>, now: Time, stop: nat, after: seq<Node>)
    requires |probes| == |nodes| && stop <= |nodes|
  {
    && |after| == |nodes|
    && forall i :: 0 <= i < |nodes| ==>
         var n := nodes[i];
         after[i] == if i >= stop || !Tried(nodes, i) then n
                     else Node(n.url, n.alertIfDown, true, n.wasDown, probes[i] == CatchingUp, if n.down then n.downSince else now)
  }

  class ChainRpc {
    var nodes: seq<Node>
    var client: Option<string>
    var noNodes: bool

    constructor (nodes: seq<Node>)
      ensures this.nodes == nodes && client == None && !noNodes
    {
      this.nodes, client, noNodes := nodes, None, false;
    }

    /**
     One pass. `probes` says how each node would come out, `fallback` the public endpoint and how
     it would, when one is configured and found.
     */
    method NewRpc(probes: seq<Probe>, fallback: Option<(string, Probe)>, now: Time) returns (selected: Option<nat>, ok: bool)
      requires |probes| == |nodes|
      modifies this
      ensures forall i: nat :: selected == Some(i) <==> IsFirst(old(nodes), probes, i)
      ensures selected.Some? ==> selected.value < |probes|
      ensures IsPass(old(nodes), probes, now, if selected.Some? then selected.value else |probes|, nodes)
      ensures ok == (selected.Some? || (fallback.Some? && fallback.value.1.Healthy?)) == !noNodes
      ensures client == (if selected.Some? then Some(old(nodes)[selected.value].url)
                         else if ok then Some(fallback.value.0) else old(client))
    {
      var anyWorking := false;
      for i := 0 to |nodes|
        invariant nodes == old(nodes)
        invariant anyWorking <==> exists j :: 0 <= j < i && !nodes[j].down
      {
        anyWorking := anyWorking || !nodes[i].down;
      }
      ghost var before := nodes;
      for i := 0 to |probes|
        invariant client == old(client) && |nodes| == |probes|
        invariant anyWorking <==> AnyUp(before)
        invariant forall j :: 0 <= j < i ==> !Usable(before, probes, j)
        invariant IsPass(before, probes, now, i, nodes)
      {
        if anyWorking && nodes[i].down {
          continue;
        }
        if !probes[i].Healthy? {
          nodes := nodes[i := MarkedDown(nodes[i], probes[i], now)];
          continue;
        }
        assert IsFirst(before, probes, i);
        client := Some(nodes[i].url);
        noNodes := false;
        return Some(i), true;
      }
      if fallback.Some? && fallback.value.1.Healthy? {
        client := Some(fallback.value.0);
        noNodes := false;
        return None, true;
      }
      noNodes := true;
      return None, false;
    }

    /** A health probe of one node, as every node gets each minute. */
    method HealthProbe(i: nat, probe: Probe, now: Time)
      requires i < |nodes|
      modifies this`nodes, this`noNodes
      ensures nodes == old(nodes)[i := NodeAfter(old(nodes[i]), if probe.Healthy? then Recovered else Unhealthy(probe, now))]
      ensures var n := old(nodes[i]);
              nodes[i] == if probe == Healthy
                          then Node(n.url, n.alertIfDown, false, n.wasDown || n.down, false, 62_135_596_800_000_000_000)
                          else Node(n.url, n.alertIfDown, true, n.wasDown, n.syncing || probe == CatchingUp,
                                    if !n.down && n.alertIfDown then now else n.downSince)
      ensures noNodes == (old(noNodes) && !probe.Healthy?)
    {
      var n := nodes[i];
      if !probe.Healthy? {
        if !n.down {
          n := n.(down := true);
          if n.alertIfDown {
            n := n.(downSince := now);
          }
        }
        if probe.CatchingUp? {
          n := n.(syncing := true);
        }
        nodes := nodes[i := n];
        return;
      }
      if n.down {
        n := n.(wasDown := true);
      }
      nodes := nodes[i := n.(down := false, syncing := false, downSince := UNIX_EPOCH)];
      noNodes := false;
    }
  }

  /**
   A pass that selects no configured node leaves every node down, without moving the down time of
   one that was down already.
   */
  lemma EmptyPassMarksAllDown(nodes: seq<Node>, probes: seq<Probe>, now: Time, after: seq<Node>)
    requires |probes| == |nodes| && forall i :: !IsFirst(nodes, probes, i)
    requires IsPass(nodes, probes, now, |nodes|, after)
    ensures !AnyUp(after)
    ensures forall i :: 0 <= i < |nodes| ==> after[i].downSince == (if nodes[i].down then nodes[i].downSince else now)
  {
    forall i | 0 <= i < |nodes|
      ensures after[i].down
    {
      assert !nodes[i].down ==> Tried(nodes, i);
    }
  }

  /** The first healthy node among those up, or among all when none is up. */
  lemma IsFirstExactly(nodes: seq<Node>, probes: seq<Probe>, i: nat)
    requires |probes| == |nodes|
    ensures var noneUp := forall j :: 0 <= j < |nodes| ==> nodes[j].down;
            IsFirst(nodes, probes, i) <==>
            && i < |nodes| && probes[i] == Healthy && (nodes[i].down ==> noneUp)
            && (forall j :: 0 <= j < i ==> probes[j] != Healthy || (nodes[j].down && !noneUp))
  {
    var noneUp := forall j :: 0 <= j < |nodes| ==> nodes[j].down;
    assert AnyUp(nodes) <==> !noneUp;
    assert forall j: nat :: j < |nodes| ==> (Usable(nodes, probes, j) <==> probes[j] == Healthy && (nodes[j].down ==> noneUp));
  }

  lemma {:induction false} SomeUsableIsFirst(nodes: seq<Node>, probes: seq<Probe>, i: nat) returns (first: nat)
    requires |probes| == |nodes| && i < |nodes| && Usable(nodes, probes, i)
    ensures IsFirst(nodes, probes, first)
  {
    if j :| 0 <= j < i && Usable(nodes, probes, j) {
      first := SomeUsableIsFirst(nodes, probes, j);
    } else {
      first := i;
    }
  }

  /** A node that is healthy in two passes in a row makes the first or the second select a configured node. */
  lemma SecondPassSelects(nodes: seq<Node>, probes: seq<Probe>, now: Time, after: seq<Node>, probes': seq<Probe>, i: nat)
    requires |probes| == |probes'| == |nodes| && i < |nodes|
    requires probes[i].Healthy? && probes'[i].Healthy?
    requires IsPass(nodes, probes, now, |nodes|, after)
    ensures (exists j: nat :: IsFirst(nodes, probes, j)) || (exists j: nat :: IsFirst(after, probes', j))
  {
    if forall j: nat :: !IsFirst(nodes, probes, j) {
      EmptyPassMarksAllDown(nodes, probes, now, after);
      assert Usable(after, probes', i);
      var first := SomeUsableIsFirst(after, probes', i);
    }
  }

  /** What selection passes and health probes do to one node. */
  datatype NodeEvent = Failed(probe: Probe, now: Time) | Unhealthy(probe: Probe, now: Time) | Recovered

  function NodeAfter(n: Node, e: NodeEvent): Node {
    match e
    case Failed(probe, now) => MarkedDown(n, probe, now)
    case Unhealthy(probe, now) =>
      n.(down := true, downSince := if !n.down && n.alertIfDown then now else n.downSince,
         syncing := n.syncing || probe.CatchingUp?)
    case Recovered => n.(down := false, wasDown := n.wasDown || n.down, syncing := false, downSince := UNIX_EPOCH)
  }

  function NodeAfterAll(n: Node, events: seq<NodeEvent>): Node {
    if events == [] then n else NodeAfter(NodeAfterAll(n, events[..|events| - 1]), events[|events| - 1])
  }

  /** The event that began the present outage: the first after the last recovery. */
  function OutageBegan(events: seq<NodeEvent>): Option<NodeEvent> {
    if events == [] then None
    else
      var before, last := OutageBegan(events[..|events| - 1]), events[|events| - 1];
      if last.Recovered? then None else if before.Some? then before else Some(last)
  }

  /**
   A node that starts up is down exactly during an outage, and its down time is when the outage
   began - unless a health probe began it for a node without a down alert, which keeps the time
   from before.
   */
  lemma {:induction false} DownSinceOutageBegan(n: Node, events: seq<NodeEvent>)
    requires !n.down
    ensures var after, began := NodeAfterAll(n, events), OutageBegan(events);
            && after.alertIfDown == n.alertIfDown
            && (after.down <==> began.Some?)
            && (began.Some? && (began.value.Failed? || n.alertIfDown) ==> !began.value.Recovered? && after.downSince == began.value.now)
            && (began.Some? && began.value.Unhealthy? && !n.alertIfDown ==> after.downSince in {n.downSince, UNIX_EPOCH})
            && (began.None? ==> after.downSince in {n.downSince, UNIX_EPOCH})
  {
    if events != [] {
      DownSinceOutageBegan(n, events[..|events| - 1]);
    }
  }

  /** A node counts as having been down exactly when an outage of it ended. */
  lemma {:induction false} WasDownExactly(n: Node, events: seq<NodeEvent>)
    requires !n.down && !n.wasDown
    ensures NodeAfterAll(n, events).wasDown <==>
            exists k :: 0 <= k < |events| && events[k].Recovered? && OutageBegan(events[..k]) != None
  {
    if events != [] {
      var m := |events| - 1;
      WasDownExactly(n, events[..m]);
      DownSinceOutageBegan(n, events[..m]);
      assert forall k :: 0 <= k < m ==> events[..m][k] == events[k] && events[..m][..k] == events[..k];
    }
  }
}
