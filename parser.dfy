/** The conversion of a simplified topology into the world model, structural
    part: one network record per declared network, one host record per node
    name (adapters resolved to the classical and quantum hosts they link),
    hosts placed into their networks, each connection assigned to at most
    one network, and zones assembled from their declared networks and the
    adapters that touch them. Positions, sizes and lengths are not part of
    this model. A conversion that raises (a record that fails validation, a
    connection naming an unknown node) is the `None` result. */
module Parser {
  import opened Common
  import opened Topology
  import opened Validator
  import Scoring

  // ---------------------------------------------------------------------
  // World records

  /** `HostModal`, or an `AdapterModal` with the hosts and networks it
      joins. */
  datatype Host =
    | HostModal(name: string, kind: string, address: string)
    | AdapterModal(name: string, kind: string, address: string, quantumHost: string, classicalHost: string,
                   classicalNetwork: string, quantumNetwork: string)

  /** `ConnectionModal` without its length, which comes from the layout. */
  datatype ConnectionModal = ConnectionModal(
    fromNode: string, toNode: string, name: string, bandwidth: int, latency: int, lossPerKm: int, noiseModel: string)

  datatype NetworkModal = NetworkModal(
    name: string, address: string, kind: NetworkKind, hosts: seq<Host>, connections: seq<ConnectionModal>)

  datatype ZoneModal = ZoneModal(name: string, kind: string, networks: seq<NetworkModal>, adapters: seq<Host>)

  datatype WorldModal = WorldModal(name: string, zones: seq<ZoneModal>)

  // ---------------------------------------------------------------------
  // Networks

  /** The declared network names, one per declaration. */
  function NetworkNames(nets: seq<(string, NetworkKind)>): (r: seq<string>)
    ensures |r| == |nets| && forall i :: 0 <= i < |nets| ==> r[i] == nets[i].0
  {
    seq(|nets|, i requires 0 <= i < |nets| => nets[i].0)
  }

  /** The order of `network_map`: each declared name at its first
      declaration. */
  function NetworkOrder(nets: seq<(string, NetworkKind)>): seq<string>
  {
    Dedup(NetworkNames(nets))
  }

  /** `network_map` as first filled: one empty network per declared name,
      named and addressed by it, of the kind its last declaration gives. */
  function EmptyNetworks(nets: seq<(string, NetworkKind)>): (r: map<string, NetworkModal>)
    ensures forall x :: x in r <==> x in NetworkNames(nets)
    ensures forall x :: x in r ==>
      r[x].name == x && r[x].address == x && r[x].hosts == [] && r[x].connections == [] && (x, r[x].kind) in nets
  {
    if nets == [] then map[]
    else
      var n := |nets| - 1;
      assert NetworkNames(nets) == NetworkNames(nets[..n]) + [nets[n].0];
      var name := nets[n].0;
      EmptyNetworks(nets[..n])[name := NetworkModal(name, name, nets[n].1, [], [])]
  }

  /** Exactly one network is created per declared name: the order lists
      each declared name once, and the map holds exactly those names. */
  lemma DeclaredNetworks(nets: seq<(string, NetworkKind)>)
    ensures Distinct(NetworkOrder(nets))
    ensures forall x :: x in NetworkOrder(nets) <==> x in EmptyNetworks(nets)
    ensures forall x :: x in EmptyNetworks(nets) <==> exists i :: 0 <= i < |nets| && nets[i].0 == x
  {
    DedupKeepsFirstOccurrenceOrder(NetworkNames(nets));
    forall x | x in EmptyNetworks(nets)
      ensures exists i :: 0 <= i < |nets| && nets[i].0 == x
    {
      var i :| 0 <= i < |NetworkNames(nets)| && NetworkNames(nets)[i] == x;
      assert nets[i].0 == x;
    }
  }

  /** One more declaration: its name joins the order unless already there,
      and its network record replaces any earlier one of that name. */
  lemma NetworkStep(nets: seq<(string, NetworkKind)>, k: nat)
    requires k < |nets|
    ensures var name := nets[k].0;
      && (name in EmptyNetworks(nets[..k]) <==> name in NetworkOrder(nets[..k]))
      && NetworkOrder(nets[..k + 1]) == (if name in NetworkOrder(nets[..k]) then NetworkOrder(nets[..k]) else NetworkOrder(nets[..k]) + [name])
      && EmptyNetworks(nets[..k + 1]) == EmptyNetworks(nets[..k])[name := NetworkModal(name, name, nets[k].1, [], [])]
  {
    assert nets[..k + 1][..k] == nets[..k];
    var s := NetworkNames(nets[..k + 1]);
    assert s[..|s| - 1] == NetworkNames(nets[..k]);
  }

  /** The loop that fills `network_map` and records its key order. */
  method CreateNetworks(nets: seq<(string, NetworkKind)>) returns (order: seq<string>, networkMap: map<string, NetworkModal>)
    ensures order == NetworkOrder(nets)
    ensures networkMap == EmptyNetworks(nets)
  {
    order, networkMap := [], map[];
    var k := 0;
    while k < |nets|
      invariant k <= |nets|
      invariant order == NetworkOrder(nets[..k])
      invariant networkMap == EmptyNetworks(nets[..k])
    {
      NetworkStep(nets, k);
      var name := nets[k].0;
      if name !in networkMap {
        order := order + [name];
      }
      networkMap := networkMap[name := NetworkModal(name, name, nets[k].1, [], [])];
      k := k + 1;
    }
    assert nets[..k] == nets;
  }

  // ---------------------------------------------------------------------
  // Hosts and adapters

  /** `node_types.get(x, "")`. */
  function TypeOf(types: map<string, string>, x: string): string
  {
    if x in types then types[x] else ""
  }

  /** The node across connection `c` from adapter `a`, when `c` touches `a`
      and that node's type does not mention "Adapter"; the from-end test
      comes first. */
  function FarEnd(c: (string, string), a: string, types: map<string, string>): Option<string>
  {
    if c.0 == a && !Contains(TypeOf(types, c.1), "Adapter") then Some(c.1)
    else if c.1 == a && !Contains(TypeOf(types, c.0), "Adapter") then Some(c.0)
    else None
  }

  /** Connection `c` offers adapter `a` a host whose type mentions `tag`. */
  predicate EndMatches(c: (string, string), a: string, types: map<string, string>, tag: string)
  {
    FarEnd(c, a, types).Some? && Contains(TypeOf(types, FarEnd(c, a, types).value), tag)
  }

  /** The host the adapter records for `tag` after scanning `conns`: each
      matching connection overwrites the one before, "" when none matches. */
  function AdapterEnd(conns: seq<(string, string)>, a: string, types: map<string, string>, tag: string): string
  {
    if conns == [] then ""
    else
      var n := |conns| - 1;
      if EndMatches(conns[n], a, types, tag) then FarEnd(conns[n], a, types).value
      else AdapterEnd(conns[..n], a, types, tag)
  }

  /** The adapter's host for `tag` is the far end of the last connection
      offering one, and "" when no connection does. */
  lemma {:induction false} AdapterEndIsLastMatch(conns: seq<(string, string)>, a: string, types: map<string, string>, tag: string)
    ensures (forall k :: 0 <= k < |conns| ==> !EndMatches(conns[k], a, types, tag)) ==> AdapterEnd(conns, a, types, tag) == ""
    ensures forall k :: 0 <= k < |conns| && EndMatches(conns[k], a, types, tag) &&
                        (forall j :: k < j < |conns| ==> !EndMatches(conns[j], a, types, tag)) ==>
              AdapterEnd(conns, a, types, tag) == FarEnd(conns[k], a, types).value
    ensures AdapterEnd(conns, a, types, tag) != "" ==>
              exists k :: 0 <= k < |conns| && EndMatches(conns[k], a, types, tag) &&
                          FarEnd(conns[k], a, types).value == AdapterEnd(conns, a, types, tag)
  {
    if conns != [] {
      var n := |conns| - 1;
      var p := conns[..n];
      AdapterEndIsLastMatch(p, a, types, tag);
      assert forall k :: 0 <= k < n ==> p[k] == conns[k];
      if !EndMatches(conns[n], a, types, tag) && AdapterEnd(conns, a, types, tag) != "" {
        var k :| 0 <= k < n && EndMatches(p[k], a, types, tag) && FarEnd(p[k], a, types).value == AdapterEnd(p, a, types, tag);
        assert conns[k] == p[k];
      }
    }
  }

  /** A matched host is a neighbour of the adapter whose type mentions the
      tag and not "Adapter". */
  lemma MatchIsNeighbour(c: (string, string), a: string, types: map<string, string>, tag: string)
    requires EndMatches(c, a, types, tag)
    ensures var x := FarEnd(c, a, types).value;
      (c == (a, x) || c == (x, a)) && Contains(TypeOf(types, x), tag) && !Contains(TypeOf(types, x), "Adapter")
  {
  }

  /** The scan over the connections that finds an adapter's classical and
      quantum hosts. */
  method AdapterEnds(conns: seq<(string, string)>, a: string, types: map<string, string>)
      returns (classical: string, quantum: string)
    ensures classical == AdapterEnd(conns, a, types, "Classical")
    ensures quantum == AdapterEnd(conns, a, types, "Quantum")
  {
    classical, quantum := "", "";
    var k := 0;
    while k < |conns|
      invariant k <= |conns|
      invariant classical == AdapterEnd(conns[..k], a, types, "Classical")
      invariant quantum == AdapterEnd(conns[..k], a, types, "Quantum")
    {
      assert conns[..k + 1][..k] == conns[..k];
      var (fromNode, toNode) := conns[k];
      if fromNode == a && !Contains(TypeOf(types, toNode), "Adapter") {
        if Contains(TypeOf(types, toNode), "Classical") {
          classical := toNode;
        }
        if Contains(TypeOf(types, toNode), "Quantum") {
          quantum := toNode;
        }
      } else if toNode == a && !Contains(TypeOf(types, fromNode), "Adapter") {
        if Contains(TypeOf(types, fromNode), "Classical") {
          classical := fromNode;
        }
        if Contains(TypeOf(types, fromNode), "Quantum") {
          quantum := fromNode;
        }
      }
      k := k + 1;
    }
    assert conns[..k] == conns;
  }

  /** An adapter record validates only with both network names set. */
  predicate AdapterComplete(s: SimplifiedNode)
  {
    s.kind != "Adapter" || (s.classicalNetwork.Some? && s.quantumNetwork.Some?)
  }

  predicate AdaptersComplete(nodes: seq<SimplifiedNode>)
  {
    forall i :: 0 <= i < |nodes| ==> AdapterComplete(nodes[i])
  }

  /** The record made for one node. */
  function HostFor(s: SimplifiedNode, conns: seq<(string, string)>, types: map<string, string>): Host
    requires AdapterComplete(s)
  {
    if s.kind == "Adapter" then
      AdapterModal(s.name, "QuantumAdapter", s.name, AdapterEnd(conns, s.name, types, "Quantum"),
                   AdapterEnd(conns, s.name, types, "Classical"), s.classicalNetwork.value, s.quantumNetwork.value)
    else HostModal(s.name, s.kind, s.name)
  }

  /** `host_map`: each name mapped to the record of the last node carrying
      it. */
  function HostMapOf(nodes: seq<SimplifiedNode>, conns: seq<(string, string)>, types: map<string, string>): (r: map<string, Host>)
    requires AdaptersComplete(nodes)
    ensures forall x :: x in r <==> x in NameList(nodes)
  {
    if nodes == [] then map[]
    else
      var n := |nodes| - 1;
      assert NameList(nodes) == NameList(nodes[..n]) + [nodes[n].name];
      HostMapOf(nodes[..n], conns, types)[nodes[n].name := HostFor(nodes[n], conns, types)]
  }

  /** The host map holds the record of the last node of each name. */
  lemma {:induction false} HostMapKeepsLast(nodes: seq<SimplifiedNode>, conns: seq<(string, string)>, types: map<string, string>, i: nat)
    requires AdaptersComplete(nodes) && i < |nodes|
    requires forall j :: i < j < |nodes| ==> nodes[j].name != nodes[i].name
    ensures HostMapOf(nodes, conns, types)[nodes[i].name] == HostFor(nodes[i], conns, types)
  {
    var n := |nodes| - 1;
    if i < n {
      assert AdaptersComplete(nodes[..n]);
      HostMapKeepsLast(nodes[..n], conns, types, i);
    }
  }

  /** The loop that fills `host_map`, resolving each adapter's hosts; `None`
      where an adapter record fails validation. The key order is the order
      of first occurrence of the names. */
  method CreateHosts(nodes: seq<SimplifiedNode>, conns: seq<(string, string)>, types: map<string, string>)
      returns (r: Option<(seq<string>, map<string, Host>)>)
    ensures r.None? <==> !AdaptersComplete(nodes)
    ensures r.Some? ==> r.value.0 == Names(nodes) && r.value.1 == HostMapOf(nodes, conns, types)
  {
    var order: seq<string>, hostMap: map<string, Host> := [], map[];
    var k := 0;
    while k < |nodes|
      invariant k <= |nodes|
      invariant AdaptersComplete(nodes[..k])
      invariant order == Names(nodes[..k])
      invariant hostMap == HostMapOf(nodes[..k], conns, types)
    {
      var s := nodes[k];
      assert nodes[..k + 1][..k] == nodes[..k];
      assert NameList(nodes[..k + 1]) == NameList(nodes[..k]) + [s.name];
      var host;
      if s.kind == "Adapter" {
        if s.classicalNetwork.None? || s.quantumNetwork.None? {
          assert !AdapterComplete(nodes[k]);
          return None;
        }
        var classical, quantum := AdapterEnds(conns, s.name, types);
        host := AdapterModal(s.name, "QuantumAdapter", s.name, quantum, classical, s.classicalNetwork.value, s.quantumNetwork.value);
      } else {
        host := HostModal(s.name, s.kind, s.name);
      }
      if s.name !in hostMap {
        order := order + [s.name];
      }
      hostMap := hostMap[s.name := host];
      k := k + 1;
      assert AdaptersComplete(nodes[..k]) by {
        forall i | 0 <= i < k ensures AdapterComplete(nodes[..k][i]) {
          if i < k - 1 { assert nodes[..k][i] == nodes[..k - 1][i]; }
        }
      }
    }
    assert nodes[..k] == nodes;
    return Some((order, hostMap));
  }

  // ---------------------------------------------------------------------
  // Placing hosts

  /** The hosts network `n` receives: in node order, the record of each
      non-adapter node whose network is `n`. */
  function NetworkHosts(nodes: seq<SimplifiedNode>, hostMap: map<string, Host>, n: string): seq<Host>
    requires forall i :: 0 <= i < |nodes| ==> nodes[i].name in hostMap
  {
    if nodes == [] then []
    else
      var m := |nodes| - 1;
      var s := nodes[m];
      NetworkHosts(nodes[..m], hostMap, n) + (if s.kind != "Adapter" && s.network == Some(n) then [hostMap[s.name]] else [])
  }

  /** A network's hosts are the records of exactly the non-adapter nodes
      that name it. */
  lemma {:induction false} NetworkHostsMeaning(nodes: seq<SimplifiedNode>, hostMap: map<string, Host>, n: string, h: Host)
    requires forall i :: 0 <= i < |nodes| ==> nodes[i].name in hostMap
    ensures h in NetworkHosts(nodes, hostMap, n) <==>
      exists i :: 0 <= i < |nodes| && nodes[i].kind != "Adapter" && nodes[i].network == Some(n) && h == hostMap[nodes[i].name]
  {
    if nodes != [] {
      var m := |nodes| - 1;
      var p := nodes[..m];
      NetworkHostsMeaning(p, hostMap, n, h);
      assert forall i :: 0 <= i < m ==> p[i] == nodes[i];
    }
  }

  /** With unique node names, no adapter record lands among a network's
      hosts: each placed record is the host record of its own node. */
  lemma NoAdapterAmongHosts(nodes: seq<SimplifiedNode>, conns: seq<(string, string)>, types: map<string, string>,
                            n: string, h: Host)
    requires AdaptersComplete(nodes) && Distinct(NameList(nodes))
    requires h in NetworkHosts(nodes, HostMapOf(nodes, conns, types), n)
    ensures h.HostModal? && h.kind != "Adapter"
  {
    var hostMap := HostMapOf(nodes, conns, types);
    NetworkHostsMeaning(nodes, hostMap, n, h);
    var i :| 0 <= i < |nodes| && nodes[i].kind != "Adapter" && nodes[i].network == Some(n) && h == hostMap[nodes[i].name];
    HostMapKeepsLast(nodes, conns, types, i);
  }

  /** One more node adds its record to its own network only. */
  lemma NetworkHostsStep(nodes: seq<SimplifiedNode>, hostMap: map<string, Host>, k: nat, n: string)
    requires k < |nodes| && forall i :: 0 <= i < |nodes| ==> nodes[i].name in hostMap
    ensures NetworkHosts(nodes[..k + 1], hostMap, n) == NetworkHosts(nodes[..k], hostMap, n) +
      (if nodes[k].kind != "Adapter" && nodes[k].network == Some(n) then [hostMap[nodes[k].name]] else [])
  {
    assert nodes[..k + 1][..k] == nodes[..k];
  }

  /** The network map once the first `k` nodes are placed. */
  ghost predicate HostsPlaced(nodes: seq<SimplifiedNode>, hostMap: map<string, Host>, networkMap0: map<string, NetworkModal>,
                              networkMap: map<string, NetworkModal>, k: nat)
    requires k <= |nodes| && forall i :: 0 <= i < |nodes| ==> nodes[i].name in hostMap
  {
    networkMap.Keys == networkMap0.Keys &&
    forall n :: n in networkMap ==>
      networkMap[n] == networkMap0[n].(hosts := networkMap0[n].hosts + NetworkHosts(nodes[..k], hostMap, n))
  }

  /** Placing node `k`. */
  lemma PlaceHostStep(nodes: seq<SimplifiedNode>, hostMap: map<string, Host>, networkMap0: map<string, NetworkModal>,
                      before: map<string, NetworkModal>, after: map<string, NetworkModal>, k: nat)
    requires k < |nodes| && forall i :: 0 <= i < |nodes| ==> nodes[i].name in hostMap
    requires HostsPlaced(nodes, hostMap, networkMap0, before, k)
    requires var s := nodes[k];
      after == if s.kind != "Adapter" && s.network.Some? && s.network.value in before
               then before[s.network.value := before[s.network.value].(hosts := before[s.network.value].hosts + [hostMap[s.name]])]
               else before
    ensures HostsPlaced(nodes, hostMap, networkMap0, after, k + 1)
  {
    forall n | n in after
      ensures after[n] == networkMap0[n].(hosts := networkMap0[n].hosts + NetworkHosts(nodes[..k + 1], hostMap, n))
    {
      NetworkHostsStep(nodes, hostMap, k, n);
    }
  }

  /** The loop that appends each non-adapter node's record to its declared
      network. */
  method PlaceHosts(nodes: seq<SimplifiedNode>, hostMap: map<string, Host>, networkMap0: map<string, NetworkModal>)
      returns (networkMap: map<string, NetworkModal>)
    requires forall i :: 0 <= i < |nodes| ==> nodes[i].name in hostMap
    ensures networkMap.Keys == networkMap0.Keys
    ensures forall n :: n in networkMap ==>
      networkMap[n] == networkMap0[n].(hosts := networkMap0[n].hosts + NetworkHosts(nodes, hostMap, n))
  {
    networkMap := networkMap0;
    var k := 0;
    assert nodes[..0] == [];
    while k < |nodes|
      invariant k <= |nodes|
      invariant HostsPlaced(nodes, hostMap, networkMap0, networkMap, k)
    {
      var s := nodes[k];
      ghost var before := networkMap;
      if s.kind != "Adapter" && s.network.Some? && s.network.value in networkMap {
        var net := networkMap[s.network.value];
        networkMap := networkMap[s.network.value := net.(hosts := net.hosts + [hostMap[s.name]])];
      }
      PlaceHostStep(nodes, hostMap, networkMap0, before, networkMap, k);
      k := k + 1;
    }
    assert nodes[..k] == nodes;
  }

  // ---------------------------------------------------------------------
  // Placing connections

  /** The first node carrying `name`, as `next(...)` finds it. */
  function FirstNode(nodes: seq<SimplifiedNode>, name: string): (s: SimplifiedNode)
    requires name in NameList(nodes)
    ensures s in nodes && s.name == name
  {
    nodes[FirstIndex(NameList(nodes), name)]
  }

  /** The search for the first node carrying `name`. */
  method FindNode(nodes: seq<SimplifiedNode>, name: string) returns (r: Option<SimplifiedNode>)
    ensures r.None? <==> name !in NameList(nodes)
    ensures r.Some? ==> r.value == FirstNode(nodes, name)
  {
    var k := 0;
    while k < |nodes|
      invariant k <= |nodes|
      invariant name !in NameList(nodes)[..k]
    {
      if nodes[k].name == name {
        assert NameList(nodes)[k] == name;
        assert FirstIndex(NameList(nodes), name) == k;
        return Some(nodes[k]);
      }
      assert NameList(nodes)[..k + 1] == NameList(nodes)[..k] + [nodes[k].name];
      k := k + 1;
    }
    assert NameList(nodes)[..k] == NameList(nodes);
    return None;
  }

  /** The network a connection is assigned to: the from-node's network when
      declared, else an adapter from-node's declared classical network,
      else none. */
  function Target(c: (string, string), nodes: seq<SimplifiedNode>, declared: set<string>): (r: Option<string>)
    requires c.0 in NameList(nodes)
    ensures r.Some? ==> r.value in declared
  {
    var s := FirstNode(nodes, c.0);
    if s.network.Some? && s.network.value in declared then s.network
    else if s.kind == "Adapter" && s.classicalNetwork.Some? && s.classicalNetwork.value in declared then s.classicalNetwork
    else None
  }

  /** The record made for one connection. */
  function ConnectionFor(c: (string, string)): ConnectionModal
  {
    ConnectionModal(c.0, c.1, c.0 + "-" + c.1, 999999999, 0, 0, "none")
  }

  /** Every connection names nodes of the topology. */
  predicate EndpointsKnown(conns: seq<(string, string)>, nodes: seq<SimplifiedNode>)
  {
    forall k :: 0 <= k < |conns| ==> conns[k].0 in NameList(nodes) && conns[k].1 in NameList(nodes)
  }

  /** The connections network `n` receives, in order. */
  function NetworkConnections(conns: seq<(string, string)>, nodes: seq<SimplifiedNode>, declared: set<string>, n: string): seq<ConnectionModal>
    requires EndpointsKnown(conns, nodes)
  {
    if conns == [] then []
    else
      var m := |conns| - 1;
      NetworkConnections(conns[..m], nodes, declared, n) + (if Target(conns[m], nodes, declared) == Some(n) then [ConnectionFor(conns[m])] else [])
  }

  /** Every connection record of network `n` is named "from-to", has noise
      model "none" and no loss, and comes from a connection assigned to `n`. */
  lemma {:induction false} ConnectionRecords(conns: seq<(string, string)>, nodes: seq<SimplifiedNode>, declared: set<string>, n: string,
                                             c: ConnectionModal)
    requires EndpointsKnown(conns, nodes) && c in NetworkConnections(conns, nodes, declared, n)
    ensures c.name == c.fromNode + "-" + c.toNode && c.noiseModel == "none" && c.lossPerKm == 0
    ensures exists k :: 0 <= k < |conns| && conns[k] == (c.fromNode, c.toNode) && Target(conns[k], nodes, declared) == Some(n)
  {
    var m := |conns| - 1;
    var p := conns[..m];
    assert EndpointsKnown(p, nodes) by {
      assert forall k :: 0 <= k < m ==> p[k] == conns[k];
    }
    if c in NetworkConnections(p, nodes, declared, n) {
      ConnectionRecords(p, nodes, declared, n, c);
      var k :| 0 <= k < |p| && p[k] == (c.fromNode, c.toNode) && Target(p[k], nodes, declared) == Some(n);
      assert conns[k] == p[k];
    } else {
      assert c == ConnectionFor(conns[m]);
    }
  }

  /** How many connections are assigned to some network. */
  function PlacedCount(conns: seq<(string, string)>, nodes: seq<SimplifiedNode>, declared: set<string>): (r: nat)
    requires EndpointsKnown(conns, nodes)
    ensures r <= |conns|
  {
    if conns == [] then 0
    else
      var m := |conns| - 1;
      PlacedCount(conns[..m], nodes, declared) + (if Target(conns[m], nodes, declared).Some? then 1 else 0)
  }

  /** The connection records of the networks in `order`, counted together. */
  function ConnectionTotal(conns: seq<(string, string)>, nodes: seq<SimplifiedNode>, declared: set<string>, order: seq<string>): nat
    requires EndpointsKnown(conns, nodes)
  {
    if order == [] then 0
    else
      var m := |order| - 1;
      ConnectionTotal(conns, nodes, declared, order[..m]) + |NetworkConnections(conns, nodes, declared, order[m])|
  }

  /** How many names of `order` equal the target `x`. */
  function Hits(order: seq<string>, x: Option<string>): nat
  {
    if order == [] then 0
    else Hits(order[..|order| - 1], x) + (if x == Some(order[|order| - 1]) then 1 else 0)
  }

  /** A target is hit once by a list of distinct names holding it, and
      never otherwise. */
  lemma {:induction false} HitsDistinct(order: seq<string>, x: Option<string>)
    requires Distinct(order)
    ensures Hits(order, x) == if x.Some? && x.value in order then 1 else 0
  {
    if order != [] {
      var m := |order| - 1;
      var p := order[..m];
      assert Distinct(p);
      HitsDistinct(p, x);
      assert order == p + [order[m]];
      assert x == Some(order[m]) ==> order[m] !in p;
    }
  }

  /** Adding one connection adds, over all networks of `order`, the number
      of them it is assigned to. */
  lemma {:induction false} ConnectionTotalSnoc(conns: seq<(string, string)>, nodes: seq<SimplifiedNode>, declared: set<string>,
                                               order: seq<string>)
    requires EndpointsKnown(conns, nodes) && conns != []
    ensures EndpointsKnown(conns[..|conns| - 1], nodes)
    ensures ConnectionTotal(conns, nodes, declared, order) ==
      ConnectionTotal(conns[..|conns| - 1], nodes, declared, order) + Hits(order, Target(conns[|conns| - 1], nodes, declared))
  {
    var m := |conns| - 1;
    assert forall k :: 0 <= k < m ==> conns[..m][k] == conns[k];
    if order != [] {
      ConnectionTotalSnoc(conns, nodes, declared, order[..|order| - 1]);
    }
  }

  /** Each connection becomes at most one record: over the declared
      networks there are exactly as many connection records as assigned
      connections, so never more than connections. */
  lemma {:induction false} ConnectionsPlacedOnce(conns: seq<(string, string)>, nodes: seq<SimplifiedNode>, order: seq<string>)
    requires EndpointsKnown(conns, nodes) && Distinct(order)
    ensures ConnectionTotal(conns, nodes, Elems(order), order) == PlacedCount(conns, nodes, Elems(order))
    ensures ConnectionTotal(conns, nodes, Elems(order), order) <= |conns|
  {
    var declared := Elems(order);
    if conns == [] {
      ConnectionTotalEmpty(nodes, declared, order);
    } else {
      var m := |conns| - 1;
      ConnectionTotalSnoc(conns, nodes, declared, order);
      ConnectionsPlacedOnce(conns[..m], nodes, order);
      HitsDistinct(order, Target(conns[m], nodes, declared));
    }
  }

  lemma {:induction false} ConnectionTotalEmpty(nodes: seq<SimplifiedNode>, declared: set<string>, order: seq<string>)
    ensures ConnectionTotal([], nodes, declared, order) == 0
  {
    if order != [] {
      ConnectionTotalEmpty(nodes, declared, order[..|order| - 1]);
    }
  }

  /** One more connection adds its record to its target network only. */
  lemma NetworkConnectionsStep(conns: seq<(string, string)>, nodes: seq<SimplifiedNode>, declared: set<string>, k: nat, n: string)
    requires k < |conns| && EndpointsKnown(conns[..k + 1], nodes)
    ensures EndpointsKnown(conns[..k], nodes)
    ensures NetworkConnections(conns[..k + 1], nodes, declared, n) == NetworkConnections(conns[..k], nodes, declared, n) +
      (if Target(conns[k], nodes, declared) == Some(n) then [ConnectionFor(conns[k])] else [])
  {
    assert conns[..k + 1][..k] == conns[..k];
  }

  /** The network map once the first `k` connections are placed. */
  ghost predicate ConnectionsPlaced(conns: seq<(string, string)>, nodes: seq<SimplifiedNode>, networkMap0: map<string, NetworkModal>,
                                    networkMap: map<string, NetworkModal>, k: nat)
    requires k <= |conns| && EndpointsKnown(conns[..k], nodes)
  {
    networkMap.Keys == networkMap0.Keys &&
    forall n :: n in networkMap ==>
      networkMap[n] == networkMap0[n].(connections := networkMap0[n].connections + NetworkConnections(conns[..k], nodes, networkMap0.Keys, n))
  }

  /** Placing connection `k`. */
  lemma PlaceConnectionStep(conns: seq<(string, string)>, nodes: seq<SimplifiedNode>, networkMap0: map<string, NetworkModal>,
                            before: map<string, NetworkModal>, after: map<string, NetworkModal>, k: nat)
    requires k < |conns| && EndpointsKnown(conns[..k + 1], nodes) && EndpointsKnown(conns[..k], nodes)
    requires ConnectionsPlaced(conns, nodes, networkMap0, before, k)
    requires var t := Target(conns[k], nodes, networkMap0.Keys);
      after == if t.Some? then before[t.value := before[t.value].(connections := before[t.value].connections + [ConnectionFor(conns[k])])]
               else before
    ensures ConnectionsPlaced(conns, nodes, networkMap0, after, k + 1)
  {
    forall n | n in after
      ensures after[n] == networkMap0[n].(connections := networkMap0[n].connections + NetworkConnections(conns[..k + 1], nodes, networkMap0.Keys, n))
    {
      NetworkConnectionsStep(conns, nodes, networkMap0.Keys, k, n);
    }
  }

  /** The loop that turns each connection into a record and appends it to
      its network; `None` where a connection names an unknown node. */
  method PlaceConnections(conns: seq<(string, string)>, nodes: seq<SimplifiedNode>, hostMap: map<string, Host>,
                          networkMap0: map<string, NetworkModal>)
      returns (r: Option<map<string, NetworkModal>>)
    requires forall x :: x in hostMap <==> x in NameList(nodes)
    ensures r.None? <==> !EndpointsKnown(conns, nodes)
    ensures r.Some? ==> r.value.Keys == networkMap0.Keys && forall n :: n in r.value ==>
      r.value[n] == networkMap0[n].(connections := networkMap0[n].connections + NetworkConnections(conns, nodes, networkMap0.Keys, n))
  {
    var networkMap := networkMap0;
    var k := 0;
    assert conns[..0] == [];
    while k < |conns|
      invariant k <= |conns|
      invariant EndpointsKnown(conns[..k], nodes)
      invariant ConnectionsPlaced(conns, nodes, networkMap0, networkMap, k)
    {
      var (fromName, toName) := conns[k];
      if fromName !in hostMap || toName !in hostMap {
        return None;
      }
      assert EndpointsKnown(conns[..k + 1], nodes) by {
        assert forall j :: 0 <= j < k ==> conns[..k + 1][j] == conns[..k][j];
      }
      var record := ConnectionModal(fromName, toName, fromName + "-" + toName, 999999999, 0, 0, "none");
      var fromNode := FindNode(nodes, fromName);
      var s := fromNode.value;
      ghost var before := networkMap;
      if s.network.Some? && s.network.value in networkMap {
        var net := networkMap[s.network.value];
        networkMap := networkMap[s.network.value := net.(connections := net.connections + [record])];
      } else if s.kind == "Adapter" && s.classicalNetwork.Some? && s.classicalNetwork.value in networkMap {
        var net := networkMap[s.classicalNetwork.value];
        networkMap := networkMap[s.classicalNetwork.value := net.(connections := net.connections + [record])];
      }
      PlaceConnectionStep(conns, nodes, networkMap0, before, networkMap, k);
      k := k + 1;
    }
    assert conns[..k] == conns;
    return Some(networkMap);
  }

  // ---------------------------------------------------------------------
  // Zones

  /** The zone's networks: its listed names that are declared, in its
      order. */
  function ZoneNetworks(names: seq<string>, networkMap: map<string, NetworkModal>): seq<NetworkModal>
  {
    if names == [] then []
    else
      var m := |names| - 1;
      ZoneNetworks(names[..m], networkMap) + (if names[m] in networkMap then [networkMap[names[m]]] else [])
  }

  /** An adapter belongs to a zone listing its classical or its quantum
      network. */
  predicate InZone(h: Host, names: seq<string>)
  {
    h.AdapterModal? && (h.classicalNetwork in names || h.quantumNetwork in names)
  }

  /** The zone's adapters, in the order of `host_map`. */
  function ZoneAdapters(order: seq<string>, hostMap: map<string, Host>, names: seq<string>): seq<Host>
    requires forall x :: x in order ==> x in hostMap
  {
    if order == [] then []
    else
      var m := |order| - 1;
      ZoneAdapters(order[..m], hostMap, names) + (if InZone(hostMap[order[m]], names) then [hostMap[order[m]]] else [])
  }

  /** All hosts of a list of networks. */
  function HostsIn(nets: seq<NetworkModal>): seq<Host>
  {
    if nets == [] then [] else HostsIn(nets[..|nets| - 1]) + nets[|nets| - 1].hosts
  }

  /** The zone record, or `None` where the zone is skipped: no declared
      network, or nothing to place in it. */
  function ZoneFor(z: SimplifiedZone, networkMap: map<string, NetworkModal>, order: seq<string>, hostMap: map<string, Host>): Option<ZoneModal>
    requires forall x :: x in order ==> x in hostMap
  {
    var nets := ZoneNetworks(z.networks, networkMap);
    var adapters := ZoneAdapters(order, hostMap, z.networks);
    if nets == [] || HostsIn(nets) + adapters == [] then None
    else Some(ZoneModal(z.name, "SECURE", nets, adapters))
  }

  /** The zone records, in zone order. */
  function ZonesOf(zones: seq<SimplifiedZone>, networkMap: map<string, NetworkModal>, order: seq<string>, hostMap: map<string, Host>): seq<ZoneModal>
    requires forall x :: x in order ==> x in hostMap
  {
    if zones == [] then []
    else
      var m := |zones| - 1;
      var z := ZoneFor(zones[m], networkMap, order, hostMap);
      ZonesOf(zones[..m], networkMap, order, hostMap) + (if z.Some? then [z.value] else [])
  }

  /** A zone keeps exactly its listed names that are declared, as those
      networks, and is empty of networks exactly when none is declared. */
  lemma {:induction false} ZoneNetworksMeaning(names: seq<string>, networkMap: map<string, NetworkModal>, net: NetworkModal)
    ensures net in ZoneNetworks(names, networkMap) <==> exists x :: x in names && x in networkMap && net == networkMap[x]
    ensures ZoneNetworks(names, networkMap) == [] <==> forall x :: x in names ==> x !in networkMap
  {
    if names != [] {
      var m := |names| - 1;
      ZoneNetworksMeaning(names[..m], networkMap, net);
      assert names == names[..m] + [names[m]];
      assert forall x :: x in names <==> x in names[..m] || x == names[m];
    }
  }

  /** A zone holds exactly the adapters whose classical or quantum network
      it lists. */
  lemma {:induction false} ZoneAdaptersMeaning(order: seq<string>, hostMap: map<string, Host>, names: seq<string>, h: Host)
    requires forall x :: x in order ==> x in hostMap
    ensures h in ZoneAdapters(order, hostMap, names) <==> exists i :: 0 <= i < |order| && h == hostMap[order[i]] && InZone(h, names)
  {
    if order != [] {
      var m := |order| - 1;
      var p := order[..m];
      ZoneAdaptersMeaning(p, hostMap, names, h);
      if h in ZoneAdapters(order, hostMap, names) && h !in ZoneAdapters(p, hostMap, names) {
        assert h == hostMap[order[m]] && InZone(h, names);
      }
      if exists i :: 0 <= i < |order| && h == hostMap[order[i]] && InZone(h, names) {
        var i :| 0 <= i < |order| && h == hostMap[order[i]] && InZone(h, names);
        if i < m {
          assert p[i] == order[i];
        }
      }
    }
  }

  /** Every zone produced has a declared network and something to place,
      and there are never more zones than declared. */
  lemma {:induction false} ZonesMeaning(zones: seq<SimplifiedZone>, networkMap: map<string, NetworkModal>, order: seq<string>,
                                        hostMap: map<string, Host>)
    requires forall x :: x in order ==> x in hostMap
    ensures |ZonesOf(zones, networkMap, order, hostMap)| <= |zones|
    ensures forall z :: z in ZonesOf(zones, networkMap, order, hostMap) ==>
      z.kind == "SECURE" && z.networks != [] && HostsIn(z.networks) + z.adapters != [] &&
      exists i :: 0 <= i < |zones| && zones[i].name == z.name && z.networks == ZoneNetworks(zones[i].networks, networkMap) &&
                  z.adapters == ZoneAdapters(order, hostMap, zones[i].networks)
  {
    if zones != [] {
      var m := |zones| - 1;
      ZonesMeaning(zones[..m], networkMap, order, hostMap);
      assert forall i :: 0 <= i < m ==> zones[..m][i] == zones[i];
    }
  }

  /** The loop that builds the zone records. */
  method AssembleZones(zones: seq<SimplifiedZone>, networkMap: map<string, NetworkModal>, order: seq<string>, hostMap: map<string, Host>)
      returns (worldZones: seq<ZoneModal>)
    requires forall x :: x in order ==> x in hostMap
    ensures worldZones == ZonesOf(zones, networkMap, order, hostMap)
  {
    worldZones := [];
    var k := 0;
    while k < |zones|
      invariant k <= |zones|
      invariant worldZones == ZonesOf(zones[..k], networkMap, order, hostMap)
    {
      assert zones[..k + 1][..k] == zones[..k];
      var zone := ZoneFor(zones[k], networkMap, order, hostMap);
      if zone.Some? {
        worldZones := worldZones + [zone.value];
      }
      k := k + 1;
    }
    assert zones[..k] == zones;
  }

  // ---------------------------------------------------------------------
  // The whole conversion

  /** Every network after assembly: its declared record with its hosts and
      its connections. */
  function FinalNetworks(t: SimplifiedTopology, hostMap: map<string, Host>): (r: map<string, NetworkModal>)
    requires forall i :: 0 <= i < |t.nodes| ==> t.nodes[i].name in hostMap
    requires EndpointsKnown(t.connections, t.nodes)
    ensures r.Keys == EmptyNetworks(t.networks).Keys
  {
    var empty := EmptyNetworks(t.networks);
    map n | n in empty :: empty[n].(hosts := NetworkHosts(t.nodes, hostMap, n),
                                    connections := NetworkConnections(t.connections, t.nodes, empty.Keys, n))
  }

  /** `convert_simplified_to_complex_with_layout`, structural part. */
  function Converted(t: SimplifiedTopology): Option<WorldModal>
  {
    if !AdaptersComplete(t.nodes) || !EndpointsKnown(t.connections, t.nodes) then None
    else
      var hostMap := HostMapOf(t.nodes, t.connections, Scoring.TypeMap(t.nodes));
      Some(WorldModal(t.worldName, ZonesOf(t.zones, FinalNetworks(t, hostMap), Names(t.nodes), hostMap)))
  }

  /** The conversion raises exactly when an adapter lacks a network name or
      a connection names an unknown node. */
  lemma ConvertedFails(t: SimplifiedTopology)
    ensures Converted(t).None? <==>
      (exists i :: 0 <= i < |t.nodes| && t.nodes[i].kind == "Adapter" &&
                   (t.nodes[i].classicalNetwork.None? || t.nodes[i].quantumNetwork.None?)) ||
      (exists k :: 0 <= k < |t.connections| &&
                   (t.connections[k].0 !in NameList(t.nodes) || t.connections[k].1 !in NameList(t.nodes)))
  {
  }

  /** Filling the empty networks with their hosts and then their
      connections gives the final networks. */
  lemma AssembledNetworks(t: SimplifiedTopology, hostMap: map<string, Host>, networkMap: map<string, NetworkModal>)
    requires forall i :: 0 <= i < |t.nodes| ==> t.nodes[i].name in hostMap
    requires EndpointsKnown(t.connections, t.nodes)
    requires var empty := EmptyNetworks(t.networks);
      networkMap.Keys == empty.Keys &&
      forall n :: n in networkMap ==>
        networkMap[n] == empty[n].(hosts := empty[n].hosts + NetworkHosts(t.nodes, hostMap, n),
                                   connections := empty[n].connections + NetworkConnections(t.connections, t.nodes, empty.Keys, n))
    ensures networkMap == FinalNetworks(t, hostMap)
  {
    var empty := EmptyNetworks(t.networks);
    var final := FinalNetworks(t, hostMap);
    forall n | n in final
      ensures final[n] == networkMap[n]
    {
      var hosts, conns := NetworkHosts(t.nodes, hostMap, n), NetworkConnections(t.connections, t.nodes, empty.Keys, n);
      assert empty[n].hosts == [] && empty[n].connections == [];
      assert [] + hosts == hosts && [] + conns == conns;
    }
  }

  /** The conversion, step by step as the converter fills its dictionaries. */
  method ConvertSimplifiedToComplex(t: SimplifiedTopology) returns (w: Option<WorldModal>)
    ensures w == Converted(t)
  {
    var types := Scoring.TypeMap(t.nodes);
    var order, networkMap := CreateNetworks(t.networks);
    var hosts := CreateHosts(t.nodes, t.connections, types);
    if hosts.None? {
      return None;
    }
    var (hostOrder, hostMap) := hosts.value;
    assert forall i :: 0 <= i < |t.nodes| ==> t.nodes[i].name in hostMap by {
      assert forall i :: 0 <= i < |t.nodes| ==> NameList(t.nodes)[i] == t.nodes[i].name;
    }
    networkMap := PlaceHosts(t.nodes, hostMap, networkMap);
    var placed := PlaceConnections(t.connections, t.nodes, hostMap, networkMap);
    if placed.None? {
      return None;
    }
    networkMap := placed.value;
    AssembledNetworks(t, hostMap, networkMap);
    assert forall x :: x in hostOrder ==> x in hostMap;
    var zones := AssembleZones(t.zones, networkMap, hostOrder, hostMap);
    return Some(WorldModal(t.worldName, zones));
  }
}
