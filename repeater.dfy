/** The quantum repeater: a bounded qubit memory keyed by the sender's name,
    the daisy-chain forwarding rule, the entanglement-swapping step (a Bell
    measurement followed by a correction message to one end host) and the
    two depth-first searches it uses over chains of repeaters. */
module Repeater {
  import opened Common
  import opened QuantumNet

  /** `get_other_node(node)`: the far end of the first channel in `chs`
      whose far end is not the excluded node. A node given by a name that is
      not in the network is compared as a string against node objects and so
      excludes nothing: the caller passes `None` then. */
  function FirstOtherEnd(me: string, chs: seq<Channel>, exclude: Option<string>): (r: Option<string>)
    ensures r.Some? ==> exclude != Some(r.value)
    ensures r.Some? ==> exists k :: 0 <= k < |chs| && OtherEnd(chs[k], me) == r.value
    ensures r.None? <==> forall k :: 0 <= k < |chs| ==> exclude == Some(OtherEnd(chs[k], me))
  {
    if chs == [] then None
    else if exclude != Some(OtherEnd(chs[0], me)) then Some(OtherEnd(chs[0], me))
    else
      var r := FirstOtherEnd(me, chs[1..], exclude);
      assert forall k :: 1 <= k < |chs| ==> chs[k] == chs[1..][k - 1];
      r
  }

  /** `b` is the far end of one of `a`'s channels. */
  ghost predicate Linked(w: QuantumWorld, a: string, b: string)
  {
    exists k :: 0 <= k < |ChannelsOf(w, a)| && OtherEnd(ChannelsOf(w, a)[k], a) == b
  }

  /** `p` goes from one node to the next over channels, every node but the
      last being a repeater. */
  ghost predicate RepeaterWalk(w: QuantumWorld, p: seq<string>)
  {
    |p| >= 2 &&
    (forall i :: 0 <= i < |p| - 1 ==> KindOf(w, p[i]) == RepeaterNode) &&
    (forall i :: 0 <= i < |p| - 1 ==> Linked(w, p[i], p[i + 1]))
  }

  /** A chain of repeaters starting at `a` leads to `t`. */
  ghost predicate LeadsTo(w: QuantumWorld, a: string, t: string)
  {
    exists p :: RepeaterWalk(w, p) && p[0] == a && p[|p| - 1] == t
  }

  /** `h` is the far end of one of the channels `chs` of `r` that does not
      lead back to `from`, or is led to from such a far end. */
  ghost predicate ReachedAwayFrom(w: QuantumWorld, r: string, from: string, chs: seq<Channel>, h: string)
  {
    exists k :: 0 <= k < |chs| && OtherEnd(chs[k], r) != from && (OtherEnd(chs[k], r) == h || LeadsTo(w, OtherEnd(chs[k], r), h))
  }

  /** A repeater one channel away from `t`, or from a node `t` is led to,
      leads to `t`. */
  lemma LeadsToStep(w: QuantumWorld, a: string, b: string, t: string)
    requires KindOf(w, a) == RepeaterNode && Linked(w, a, b)
    requires b == t || LeadsTo(w, b, t)
    ensures LeadsTo(w, a, t)
  {
    if b == t {
      assert RepeaterWalk(w, [a, b]);
    } else {
      var p :| RepeaterWalk(w, p) && p[0] == b && p[|p| - 1] == t;
      var q := [a] + p;
      assert forall i :: 1 <= i < |q| ==> q[i] == p[i - 1];
      assert RepeaterWalk(w, q);
    }
  }

  /** A channel found among `r`'s own channels links `r` to its far end. */
  lemma LinkedByChannel(w: QuantumWorld, r: string, ch: Channel)
    requires ch in ChannelsOf(w, r)
    ensures Linked(w, r, OtherEnd(ch, r))
  {
    var k :| 0 <= k < |ChannelsOf(w, r)| && ChannelsOf(w, r)[k] == ch;
  }

  /** A channel of repeater `r` whose far end is `host` or leads to it
      makes `r` lead to `host`. */
  lemma ScanLeads(w: QuantumWorld, r: string, host: string, c: Option<Channel>)
    requires KindOf(w, r) == RepeaterNode
    requires c.Some? ==> c.value in ChannelsOf(w, r) && (OtherEnd(c.value, r) == host || LeadsTo(w, OtherEnd(c.value, r), host))
    ensures c.Some? ==> LeadsTo(w, r, host)
  {
    if c.Some? {
      LinkedByChannel(w, r, c.value);
      LeadsToStep(w, r, OtherEnd(c.value, r), host);
    }
  }

  /** A host reached over one of repeater `r`'s channels, directly or
      through further repeaters, is led to from `r`. */
  lemma EndHostLeads(w: QuantumWorld, r: string, from: string, h: Option<string>)
    requires KindOf(w, r) == RepeaterNode
    requires h.Some? ==> ReachedAwayFrom(w, r, from, ChannelsOf(w, r), h.value)
    ensures h.Some? ==> LeadsTo(w, r, h.value)
  {
    if h.Some? {
      var k :| 0 <= k < |ChannelsOf(w, r)| && OtherEnd(ChannelsOf(w, r)[k], r) != from &&
               (OtherEnd(ChannelsOf(w, r)[k], r) == h.value || LeadsTo(w, OtherEnd(ChannelsOf(w, r)[k], r), h.value));
      LeadsToStep(w, r, OtherEnd(ChannelsOf(w, r)[k], r), h.value);
    }
  }

  /** `channel_exists(host, _visited)` entered at repeater `r` of the world:
      nothing if `r` was already visited, otherwise `r` is marked and its
      channels are scanned. The visited set is shared by the whole search.
      A channel found leads towards the host: a chain of repeaters goes from
      `r` over it to the host. */
  function ChannelSearch(w: QuantumWorld, r: string, host: string, visited: set<string>): (res: (Option<Channel>, set<string>))
    requires KindOf(w, r) == RepeaterNode
    ensures visited <= res.1
    ensures res.0.Some? ==> res.0.value in ChannelsOf(w, r) && LeadsTo(w, r, host)
    ensures res.0.Some? ==> OtherEnd(res.0.value, r) == host || LeadsTo(w, OtherEnd(res.0.value, r), host)
    ensures r !in visited && (exists k :: 0 <= k < |ChannelsOf(w, r)| && OtherEnd(ChannelsOf(w, r)[k], r) == host) ==> res.0.Some?
    decreases |w.kinds.Keys - visited|, 0
  {
    if r in visited then (None, visited)
    else
      VisitingShrinks(w.kinds.Keys, visited, r);
      var res := ChannelScan(w, r, host, ChannelsOf(w, r), visited + {r});
      ScanLeads(w, r, host, res.0);
      res
  }

  /** The loop of `channel_exists` over the channels `chs` of node `r`: the
      first channel whose far end is `host`, or a repeater from which the
      search reaches `host`. */
  function ChannelScan(w: QuantumWorld, r: string, host: string, chs: seq<Channel>, visited: set<string>): (res: (Option<Channel>, set<string>))
    ensures visited <= res.1
    ensures res.0.Some? ==> res.0.value in chs
    ensures res.0.Some? ==> OtherEnd(res.0.value, r) == host || LeadsTo(w, OtherEnd(res.0.value, r), host)
    ensures (exists k :: 0 <= k < |chs| && OtherEnd(chs[k], r) == host) ==> res.0.Some?
    decreases |w.kinds.Keys - visited|, |chs|
  {
    if chs == [] then (None, visited)
    else
      var other := OtherEnd(chs[0], r);
      assert forall k :: 1 <= k < |chs| ==> chs[k] == chs[1..][k - 1];
      if other == host then (Some(chs[0]), visited)
      else if KindOf(w, other) == RepeaterNode then
        var deeper := ChannelSearch(w, other, host, visited);
        if deeper.0.Some? then (Some(chs[0]), deeper.1)
        else
          UnvisitedShrinks(w.kinds.Keys, visited, deeper.1);
          ChannelScan(w, r, host, chs[1..], deeper.1)
      else ChannelScan(w, r, host, chs[1..], visited)
  }

  /** `get_other_end_host(from_node, _visited)` entered at repeater `r`:
      an end host found is led to from `r` by a chain of repeaters. */
  function EndHostSearch(w: QuantumWorld, r: string, from: string, visited: set<string>): (res: (Option<string>, set<string>))
    requires KindOf(w, r) == RepeaterNode
    ensures visited <= res.1
    ensures res.0.Some? ==> KindOf(w, res.0.value) == HostNode && LeadsTo(w, r, res.0.value)
    decreases |w.kinds.Keys - visited|, 0
  {
    if r in visited then (None, visited)
    else
      VisitingShrinks(w.kinds.Keys, visited, r);
      var res := EndHostScan(w, r, from, ChannelsOf(w, r), visited + {r});
      EndHostLeads(w, r, from, res.0);
      res
  }

  /** The loop of `get_other_end_host` over the channels `chs` of node `r`:
      the channel back to `from` is skipped, an end host ends the walk, a
      repeater is walked through (away from `r`). The host found is the far
      end of a channel not leading back to `from`, or is led to from such
      a far end. Only this first step is kept away from `from`: deeper in
      the walk `from` itself may be reached again over a cycle. */
  function EndHostScan(w: QuantumWorld, r: string, from: string, chs: seq<Channel>, visited: set<string>): (res: (Option<string>, set<string>))
    ensures visited <= res.1
    ensures res.0.Some? ==> KindOf(w, res.0.value) == HostNode
    ensures res.0.Some? ==> ReachedAwayFrom(w, r, from, chs, res.0.value)
    ensures (exists k :: 0 <= k < |chs| && OtherEnd(chs[k], r) != from && KindOf(w, OtherEnd(chs[k], r)) == HostNode) ==> res.0.Some?
    decreases |w.kinds.Keys - visited|, |chs|
  {
    if chs == [] then (None, visited)
    else
      var other := OtherEnd(chs[0], r);
      assert forall k :: 1 <= k < |chs| ==> chs[k] == chs[1..][k - 1];
      if other == from then EndHostScan(w, r, from, chs[1..], visited)
      else if KindOf(w, other) == HostNode then (Some(other), visited)
      else if KindOf(w, other) == RepeaterNode then
        var deeper := EndHostSearch(w, other, r, visited);
        if deeper.0.Some? then deeper
        else
          UnvisitedShrinks(w.kinds.Keys, visited, deeper.1);
          EndHostScan(w, r, from, chs[1..], deeper.1)
      else EndHostScan(w, r, from, chs[1..], visited)
  }

  /** The Bell-measurement outcome index mapped to its two classical bits:
      0 -> (0,0) for Phi+, 1 -> (0,1) for Psi+, 2 -> (1,0) for Phi-,
      3 -> (1,1) for Psi-. */
  function BellBits(k: nat): (r: (int, int))
    requires k < 4
    ensures 0 <= r.0 <= 1 && 0 <= r.1 <= 1
    ensures 2 * r.0 + r.1 == k
  {
    (k / 2, k % 2)
  }

  /** Where the swap correction goes and which end host it names. */
  datatype SwapPlan = SwapPlan(target: Option<string>, otherNodeAddress: string)

  /** The end host on one side of the swapping repeater `me`: the neighbour
      itself if it is an end host, otherwise the host reached by walking
      through the neighbour, which must be a repeater, away from the other
      neighbour `away`. */
  function EndHostBeyond(w: QuantumWorld, me: string, myChannels: seq<Channel>, neighbour: string, away: string): (r: Option<string>)
    ensures r.Some? ==> KindOf(w, r.value) == HostNode
    ensures KindOf(w, neighbour) == HostNode ==> r == Some(neighbour)
  {
    if KindOf(w, neighbour) == HostNode then Some(neighbour)
    else if KindOf(w, neighbour) == RepeaterNode then EndHostScan(w, me, away, myChannels, {me}).0
    else None
  }

  /** The resolution of the correction's target and of the other end host's
      address, for the two neighbours whose qubits are in memory. When
      either neighbour is not a node of the network the target is the first
      neighbour of the repeater other than the first neighbour. */
  function PlanSwap(w: QuantumWorld, me: string, myChannels: seq<Channel>, n1: string, n2: string): (p: SwapPlan)
  {
    if n1 !in w.kinds || n2 !in w.kinds then
      SwapPlan(FirstOtherEnd(me, myChannels, if n1 in w.kinds then Some(n1) else None), n1)
    else
      var end1 := EndHostBeyond(w, me, myChannels, n1, n2);
      var end2 := EndHostBeyond(w, me, myChannels, n2, n1);
      SwapPlan(end2, if end1.Some? then end1.value else n1)
  }

  /** The resolution exactly as `execute_entanglement_swapping` writes it:
      the walk for one side is guarded by the type of the OTHER neighbour. */
  function PlanSwapAsWritten(w: QuantumWorld, me: string, myChannels: seq<Channel>, n1: string, n2: string): SwapPlan
  {
    if n1 !in w.kinds || n2 !in w.kinds then
      SwapPlan(FirstOtherEnd(me, myChannels, if n1 in w.kinds then Some(n1) else None), n1)
    else
      var end1 :=
        if KindOf(w, n1) == HostNode then Some(n1)
        else if KindOf(w, n2) == RepeaterNode then EndHostScan(w, me, n2, myChannels, {me}).0
        else None;
      var end2 :=
        if KindOf(w, n2) == HostNode then Some(n2)
        else if KindOf(w, n1) == RepeaterNode then EndHostScan(w, me, n1, myChannels, {me}).0
        else None;
      SwapPlan(end2, if end1.Some? then end1.value else n1)
  }

  /** When both neighbours are nodes of the network, a correction is only
      ever sent to an end host, and it names the end host on the other side
      whenever one is found there. */
  lemma PlanSwapNamesEndHosts(w: QuantumWorld, me: string, myChannels: seq<Channel>, n1: string, n2: string)
    requires n1 in w.kinds && n2 in w.kinds
    ensures PlanSwap(w, me, myChannels, n1, n2).target.Some? ==> KindOf(w, PlanSwap(w, me, myChannels, n1, n2).target.value) == HostNode
    ensures EndHostBeyond(w, me, myChannels, n1, n2).Some? ==> KindOf(w, PlanSwap(w, me, myChannels, n1, n2).otherNodeAddress) == HostNode
    ensures KindOf(w, n2) == HostNode ==> PlanSwap(w, me, myChannels, n1, n2).target == Some(n2)
    ensures KindOf(w, n1) == HostNode ==> PlanSwap(w, me, myChannels, n1, n2).otherNodeAddress == n1
  {
  }

  /** A daisy chain A - R1 - R2 - B, seen from R2 after it stored the qubit
      forwarded by R1 and then the one sent by B. */
  function ChainWorld(): QuantumWorld
  {
    QuantumWorld(
      map["A" := HostNode, "R1" := RepeaterNode, "R2" := RepeaterNode, "B" := HostNode],
      map["R1" := [Channel(1, "A", "R1", 8, 0.2), Channel(2, "R1", "R2", 8, 0.2)],
          "R2" := [Channel(2, "R1", "R2", 8, 0.2), Channel(3, "R2", "B", 8, 0.2)]])
  }

  /** As written, the correction reaches B but names the repeater R1 instead
      of the end host A, so B's partner check discards it; the intended
      resolution names A. */
  lemma PlanSwapAsWrittenNamesRepeater()
    ensures PlanSwapAsWritten(ChainWorld(), "R2", ChannelsOf(ChainWorld(), "R2"), "R1", "B") == SwapPlan(Some("B"), "R1")
    ensures KindOf(ChainWorld(), "R1") == RepeaterNode
    ensures PlanSwap(ChainWorld(), "R2", ChannelsOf(ChainWorld(), "R2"), "R1", "B") == SwapPlan(Some("B"), "A")
  {
    var w := ChainWorld();
    var c1 := Channel(1, "A", "R1", 8, 0.2);
    var c2 := Channel(2, "R1", "R2", 8, 0.2);
    var c3 := Channel(3, "R2", "B", 8, 0.2);
    assert ChannelsOf(w, "R1") == [c1, c2];
    assert ChannelsOf(w, "R2") == [c2, c3];
    assert EndHostScan(w, "R1", "R2", [c1, c2], {"R2", "R1"}).0 == Some("A");
    assert EndHostSearch(w, "R1", "R2", {"R2"}).0 == Some("A");
    assert EndHostScan(w, "R2", "B", [c2, c3], {"R2"}).0 == Some("A");
  }

  /** The two resolutions differ only when the neighbours are of different
      kinds: with two repeaters, two end hosts or two other nodes they
      agree. */
  lemma PlanSwapAgreesOnLikeNeighbours(w: QuantumWorld, me: string, myChannels: seq<Channel>, n1: string, n2: string)
    requires KindOf(w, n1) == KindOf(w, n2)
    ensures PlanSwapAsWritten(w, me, myChannels, n1, n2) == PlanSwap(w, me, myChannels, n1, n2)
  {
  }

  /** As written, a correction is still only ever sent to an end host when
      both neighbours are nodes of the network. */
  lemma PlanSwapAsWrittenTargetsHost(w: QuantumWorld, me: string, myChannels: seq<Channel>, n1: string, n2: string)
    requires n1 in w.kinds && n2 in w.kinds
    ensures PlanSwapAsWritten(w, me, myChannels, n1, n2).target.Some? ==>
      KindOf(w, PlanSwapAsWritten(w, me, myChannels, n1, n2).target.value) == HostNode
    ensures KindOf(w, n2) == HostNode ==> PlanSwapAsWritten(w, me, myChannels, n1, n2).target == Some(n2)
  {
  }

  /** A triangle R2 - R1 - B - R2: asked for the end host away from B, the
      walk from R2 goes into R1 and comes back to B, so only the first step
      of the walk avoids the node it starts away from. */
  lemma EndHostWalkReturnsOnCycle()
    ensures EndHostScan(TriangleWorld(), "R2", "B", ChannelsOf(TriangleWorld(), "R2"), {"R2"}).0 == Some("B")
  {
    var w := TriangleWorld();
    var c1 := Channel(1, "R1", "R2", 8, 0.2);
    var c2 := Channel(2, "R2", "B", 8, 0.2);
    var c3 := Channel(3, "R1", "B", 8, 0.2);
    assert ChannelsOf(w, "R2") == [c1, c2];
    assert ChannelsOf(w, "R1") == [c1, c3];
    assert EndHostScan(w, "R1", "R2", [c1, c3], {"R2", "R1"}).0 == Some("B");
    assert EndHostSearch(w, "R1", "R2", {"R2"}).0 == Some("B");
  }

  function TriangleWorld(): QuantumWorld
  {
    QuantumWorld(
      map["R1" := RepeaterNode, "R2" := RepeaterNode, "B" := HostNode],
      map["R1" := [Channel(1, "R1", "R2", 8, 0.2), Channel(3, "R1", "B", 8, 0.2)],
          "R2" := [Channel(1, "R1", "R2", 8, 0.2), Channel(2, "R2", "B", 8, 0.2)]])
  }

  /** A quantum repeater. `world` is its view of the other nodes of its
      network; its own channels are the field `quantumChannels`. The qubit
      memory is a dictionary keyed by the sender's name, kept here as the
      key order `memKeys` and the map `memory`. Qubits forwarded along a
      channel and classical messages handed to end hosts are recorded. */
  class QuantumRepeater {
    const name: string
    const protocol: Protocol
    const numMemories: int
    const world: QuantumWorld
    var quantumChannels: seq<Channel>
    var memKeys: seq<string>
    var memory: map<string, QState>
    var transmitted: seq<(Channel, QState)>
    var delivered: seq<(string, Message)>

    /** The key order lists every key of the memory once, and the memory
        never holds more qubits than it has slots. */
    ghost predicate Valid()
      reads this
    {
      (forall i, j :: 0 <= i < j < |memKeys| ==> memKeys[i] != memKeys[j]) &&
      (forall k :: k in memory <==> k in memKeys) &&
      (memKeys == [] || |memKeys| <= numMemories)
    }

    constructor (name: string, protocol: Protocol, numMemories: int, world: QuantumWorld)
      ensures Valid()
      ensures this.name == name && this.protocol == protocol && this.numMemories == numMemories && this.world == world
      ensures quantumChannels == [] && memKeys == [] && memory == map[] && transmitted == [] && delivered == []
    {
      this.name := name;
      this.protocol := protocol;
      this.numMemories := numMemories;
      this.world := world;
      quantumChannels := [];
      memKeys := [];
      memory := map[];
      transmitted := [];
      delivered := [];
    }

    method AddQuantumChannel(ch: Channel)
      modifies this
      ensures quantumChannels == old(quantumChannels) + [ch]
      ensures memKeys == old(memKeys) && memory == old(memory)
      ensures transmitted == old(transmitted) && delivered == old(delivered)
    {
      quantumChannels := quantumChannels + [ch];
    }

    /** `get_other_node(name)` for a node given by its name. */
    function GetOtherNode(node: string): Option<string>
      reads this
    {
      FirstOtherEnd(name, quantumChannels, if node in world.kinds then Some(node) else None)
    }

    /** `channel_exists(host)`: this repeater is marked visited first. */
    function ChannelExists(host: string): Option<Channel>
      reads this
    {
      ChannelScan(world, name, host, quantumChannels, {name}).0
    }

    /** `get_other_end_host(from_node)`. */
    function GetOtherEndHost(from: string): Option<string>
      reads this
    {
      EndHostScan(world, name, from, quantumChannels, {name}).0
    }

    /** `receive_qubit`: a full memory drops the qubit; an empty memory
        receiving from an end host forwards the qubit along the first other
        channel when that leads to another repeater; otherwise the qubit is
        stored under the sender's name and, under entanglement swapping, a
        swap is attempted. `bsmIndex` is the outcome the Bell measurement
        draws, should a swap happen. */
    method ReceiveQubit(qubit: QState, source: Channel, bsmIndex: nat)
      requires Valid() && bsmIndex < 4
      modifies this
      ensures Valid()
      ensures quantumChannels == old(quantumChannels)
      ensures old(|memKeys|) >= numMemories ==> unchanged(this)
      ensures old(|memKeys|) < numMemories && Forwards(OtherEnd(source, name), source, old(|memKeys|), old(quantumChannels)) ==>
        transmitted == old(transmitted) + [(FirstOtherChannel(old(quantumChannels), source).value, qubit)] &&
        memKeys == old(memKeys) && memory == old(memory) && delivered == old(delivered)
      ensures old(|memKeys|) < numMemories && !Forwards(OtherEnd(source, name), source, old(|memKeys|), old(quantumChannels)) ==>
        var keys := StoredKeys(old(memKeys), OtherEnd(source, name));
        var mem := old(memory)[OtherEnd(source, name) := qubit];
        transmitted == old(transmitted) &&
        if protocol != EntanglementSwapping || |keys| < 2 || PlanSwapAsWritten(world, name, quantumChannels, keys[0], keys[1]).target.None? then
          memKeys == keys && memory == mem && delivered == old(delivered)
        else
          var p := PlanSwapAsWritten(world, name, quantumChannels, keys[0], keys[1]);
          memKeys == [] && memory == map[] &&
          delivered == old(delivered) + [(p.target.value, SwapCorrection(BellBits(bsmIndex), p.otherNodeAddress))]
    {
      if |memKeys| >= numMemories {
        return;
      }
      var sender := OtherEnd(source, name);
      if Forwards(sender, source, |memKeys|, quantumChannels) {
        var out := FirstOtherChannel(quantumChannels, source).value;
        transmitted := transmitted + [(out, qubit)];
        return;
      }
      memKeys := StoredKeys(memKeys, sender);
      memory := memory[sender := qubit];
      if protocol == EntanglementSwapping {
        ExecuteEntanglementSwapping(bsmIndex);
      }
    }

    /** The key order after a qubit from `sender` is stored: a new sender
        goes last, a known one keeps its place. */
    function StoredKeys(keys: seq<string>, sender: string): seq<string>
    {
      if sender in keys then keys else keys + [sender]
    }

    /** The daisy-chain forwarding rule of `receive_qubit`. */
    predicate Forwards(sender: string, source: Channel, stored: nat, chs: seq<Channel>)
      reads this
    {
      stored == 0 && KindOf(world, sender) == HostNode &&
      FirstOtherChannel(chs, source).Some? &&
      OtherEnd(FirstOtherChannel(chs, source).value, name) != sender &&
      KindOf(world, OtherEnd(FirstOtherChannel(chs, source).value, name)) == RepeaterNode
    }

    /** `execute_entanglement_swapping`: with two qubits in memory, measure
        them in the Bell basis and send the correction to the end host on
        the second neighbour's side; the memory is cleared only when the
        correction was sent. The end hosts are resolved as the code writes
        it (`PlanSwapAsWritten`), each walk guarded by the other
        neighbour's kind. */
    method ExecuteEntanglementSwapping(bsmIndex: nat)
      requires Valid() && bsmIndex < 4
      modifies this
      ensures Valid()
      ensures quantumChannels == old(quantumChannels) && transmitted == old(transmitted)
      ensures old(|memKeys|) < 2 ==> unchanged(this)
      ensures old(|memKeys|) >= 2 && PlanSwapAsWritten(world, name, quantumChannels, old(memKeys[0]), old(memKeys[1])).target.None? ==> unchanged(this)
      ensures old(|memKeys|) >= 2 && PlanSwapAsWritten(world, name, quantumChannels, old(memKeys[0]), old(memKeys[1])).target.Some? ==>
        var p := PlanSwapAsWritten(world, name, quantumChannels, old(memKeys[0]), old(memKeys[1]));
        delivered == old(delivered) + [(p.target.value, SwapCorrection(BellBits(bsmIndex), p.otherNodeAddress))] &&
        memKeys == [] && memory == map[]
    {
      if |memKeys| < 2 {
        return;
      }
      var p := PlanSwapAsWritten(world, name, quantumChannels, memKeys[0], memKeys[1]);
      if p.target.None? {
        return;
      }
      delivered := delivered + [(p.target.value, SwapCorrection(BellBits(bsmIndex), p.otherNodeAddress))];
      ClearQmemory();
    }

    method ClearQmemory()
      modifies this
      ensures Valid()
      ensures memKeys == [] && memory == map[]
      ensures quantumChannels == old(quantumChannels) && transmitted == old(transmitted) && delivered == old(delivered)
    {
      memKeys := [];
      memory := map[];
    }
  }

  /** `next(ch for ch in channels if ch is not source)`. */
  function FirstOtherChannel(chs: seq<Channel>, source: Channel): (r: Option<Channel>)
    ensures r.Some? ==> r.value in chs && r.value != source
    ensures r.None? <==> forall k :: 0 <= k < |chs| ==> chs[k] == source
  {
    if chs == [] then None
    else if chs[0] != source then Some(chs[0])
    else
      var r := FirstOtherChannel(chs[1..], source);
      assert forall k :: 1 <= k < |chs| ==> chs[k] == chs[1..][k - 1];
      r
  }
}
