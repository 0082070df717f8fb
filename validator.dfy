/** The static topology validator: an adjacency list over node names,
    reachability by depth-first search, and the rules on node types, layer
    separation, port counts and termination, composed into one report with
    duplicate messages removed. A lookup of an unknown node name, which
    raises in the validator, is the `None` result of a check. */
module Validator {
  import opened Common
  import opened Topology

  // ---------------------------------------------------------------------
  // Order-preserving de-duplication

  /** `list(dict.fromkeys(s))`: the distinct elements of `s`, each at its
      first occurrence. */
  function Dedup(s: seq<string>): (r: seq<string>)
    ensures forall x :: x in r <==> x in s
    ensures |r| <= |s|
  {
    if s == [] then []
    else
      var d := Dedup(s[..|s| - 1]);
      if s[|s| - 1] in d then d else d + [s[|s| - 1]]
  }

  predicate Distinct(s: seq<string>)
  {
    forall i, j :: 0 <= i < j < |s| ==> s[i] != s[j]
  }

  /** The position of the first occurrence of `x`. */
  function FirstIndex(s: seq<string>, x: string): (i: nat)
    requires x in s
    ensures i < |s| && s[i] == x && x !in s[..i]
  {
    if s[0] == x then 0
    else
      var i := FirstIndex(s[1..], x);
      assert s[1..][..i] == s[1..i + 1];
      i + 1
  }

  lemma FirstIndexPrefix(s: seq<string>, x: string, n: nat)
    requires n <= |s| && x in s[..n]
    ensures FirstIndex(s, x) == FirstIndex(s[..n], x)
  {
    var i := FirstIndex(s[..n], x);
    var j := FirstIndex(s, x);
    assert s[..n][..i] == s[..i];
    assert s[i] == x;
  }

  /** De-duplication keeps each element once, in the order of first
      occurrence, and changes nothing in a list without repeats. */
  lemma {:induction false} DedupKeepsFirstOccurrenceOrder(s: seq<string>)
    ensures Distinct(Dedup(s))
    ensures forall i, j :: 0 <= i < j < |Dedup(s)| ==> FirstIndex(s, Dedup(s)[i]) < FirstIndex(s, Dedup(s)[j])
  {
    if s != [] {
      var n := |s| - 1;
      DedupKeepsFirstOccurrenceOrder(s[..n]);
      var d := Dedup(s[..n]);
      forall k | 0 <= k < |d|
        ensures d[k] in s[..n] && d[k] in s && FirstIndex(s, d[k]) == FirstIndex(s[..n], d[k]) < n
      {
        FirstIndexPrefix(s, d[k], n);
      }
      if s[n] !in d {
        assert s[n] !in s[..n];
        assert FirstIndex(s, s[n]) == n;
      }
    }
  }

  lemma {:induction false} DedupOfDistinct(s: seq<string>)
    requires Distinct(s)
    ensures Dedup(s) == s
  {
    if s != [] {
      var n := |s| - 1;
      DedupOfDistinct(s[..n]);
      assert s[..n] + [s[n]] == s;
    }
  }

  // ---------------------------------------------------------------------
  // Graph utilities

  function NameList(nodes: seq<SimplifiedNode>): (r: seq<string>)
    ensures |r| == |nodes| && forall i :: 0 <= i < |nodes| ==> r[i] == nodes[i].name
  {
    seq(|nodes|, i requires 0 <= i < |nodes| => nodes[i].name)
  }

  /** The node names in the order the adjacency and node dictionaries
      first meet them. */
  function Names(nodes: seq<SimplifiedNode>): seq<string>
  {
    Dedup(NameList(nodes))
  }

  /** `get_node_map`: each name mapped to the last node carrying it. */
  function NodeMap(nodes: seq<SimplifiedNode>): (r: map<string, SimplifiedNode>)
    ensures forall x :: x in r <==> x in NameList(nodes)
    ensures forall x :: x in r ==> r[x].name == x && r[x] in nodes
  {
    if nodes == [] then map[]
    else
      var n := |nodes| - 1;
      assert NameList(nodes) == NameList(nodes[..n]) + [nodes[n].name];
      NodeMap(nodes[..n])[nodes[n].name := nodes[n]]
  }

  /** The node map holds the last node of each name. */
  lemma {:induction false} NodeMapKeepsLast(nodes: seq<SimplifiedNode>, i: nat)
    requires i < |nodes|
    requires forall j :: i < j < |nodes| ==> nodes[j].name != nodes[i].name
    ensures NodeMap(nodes)[nodes[i].name] == nodes[i]
  {
    var n := |nodes| - 1;
    if i < n {
      NodeMapKeepsLast(nodes[..n], i);
    }
  }

  /** The neighbours `build_adjacency_list` records for `u`: scanning the
      connections in order, the far end of each one starting at `u`, then
      the near end of each one ending at `u`. */
  function Neighbours(conns: seq<(string, string)>, u: string): seq<string>
  {
    if conns == [] then []
    else
      var c := conns[|conns| - 1];
      Neighbours(conns[..|conns| - 1], u) + (if c.0 == u then [c.1] else []) + (if c.1 == u then [c.0] else [])
  }

  /** The adjacency dictionary: its keys in insertion order and its lists. */
  datatype Adjacency = Adjacency(keys: seq<string>, lists: map<string, seq<string>>)

  /** `adj.get(u, [])`. */
  function AdjOf(lists: map<string, seq<string>>, u: string): seq<string>
  {
    if u in lists then lists[u] else []
  }

  /** The adjacency lists of a topology: one per node name, holding the
      neighbours of that name. */
  function AdjacencyLists(t: SimplifiedTopology): (r: map<string, seq<string>>)
    ensures forall u :: u in r <==> u in NameList(t.nodes)
  {
    map u | u in NameList(t.nodes) :: Neighbours(t.connections, u)
  }

  /** `build_adjacency_list`: the keys in the order of the nodes and, for
      each name, its neighbours. */
  method BuildAdjacencyList(t: SimplifiedTopology) returns (a: Adjacency)
    ensures a.keys == Names(t.nodes)
    ensures a.lists == AdjacencyLists(t)
  {
    var keys, lists := EmptyLists(t.nodes);
    lists := AddConnections(t.connections, lists);
    return Adjacency(keys, lists);
  }

  /** `{n.name: [] for n in topology.nodes}`. */
  method EmptyLists(nodes: seq<SimplifiedNode>) returns (keys: seq<string>, lists: map<string, seq<string>>)
    ensures keys == Names(nodes)
    ensures forall u :: u in lists <==> u in NameList(nodes)
    ensures forall u :: u in lists ==> lists[u] == []
  {
    keys := [];
    lists := map[];
    var i := 0;
    while i < |nodes|
      invariant i <= |nodes|
      invariant keys == Dedup(NameList(nodes)[..i])
      invariant forall u :: u in lists <==> u in NameList(nodes)[..i]
      invariant forall u :: u in lists ==> lists[u] == []
    {
      var name := nodes[i].name;
      assert NameList(nodes)[..i + 1] == NameList(nodes)[..i] + [name];
      if name !in lists {
        keys := keys + [name];
      }
      lists := lists[name := []];
      i := i + 1;
    }
    assert NameList(nodes)[..i] == NameList(nodes);
  }

  /** One connection `(u, v)`: `v` is appended to the list of `u` and `u`
      to the list of `v`, for those of them that are keys. */
  method AddConnection(lists0: map<string, seq<string>>, c: (string, string)) returns (lists: map<string, seq<string>>)
    ensures lists.Keys == lists0.Keys
    ensures forall w :: w in lists ==> lists[w] == lists0[w] + Added(c, w)
  {
    var (u, v) := c;
    lists := lists0;
    if u in lists {
      lists := lists[u := lists[u] + [v]];
    }
    if v in lists {
      lists := lists[v := lists[v] + [u]];
    }
  }

  /** The loop over the connections of `build_adjacency_list`. */
  method AddConnections(conns: seq<(string, string)>, empty: map<string, seq<string>>) returns (lists: map<string, seq<string>>)
    requires forall u :: u in empty ==> empty[u] == []
    ensures lists.Keys == empty.Keys
    ensures forall u :: u in lists ==> lists[u] == Neighbours(conns, u)
  {
    lists := empty;
    var j := 0;
    while j < |conns|
      invariant j <= |conns|
      invariant lists.Keys == empty.Keys
      invariant forall u :: u in lists ==> lists[u] == Neighbours(conns[..j], u)
    {
      assert conns[..j + 1][..j] == conns[..j];
      lists := AddConnection(lists, conns[j]);
      forall w | w in lists
        ensures lists[w] == Neighbours(conns[..j + 1], w)
      {
        NeighboursLast(conns[..j + 1], w);
      }
      j := j + 1;
    }
    assert conns[..j] == conns;
  }

  /** The names one connection adds to the list of `u`. */
  function Added(c: (string, string), u: string): seq<string>
  {
    (if c.0 == u then [c.1] else []) + (if c.1 == u then [c.0] else [])
  }

  lemma NeighboursLast(conns: seq<(string, string)>, u: string)
    requires conns != []
    ensures Neighbours(conns, u) == Neighbours(conns[..|conns| - 1], u) + Added(conns[|conns| - 1], u)
  {
  }

  lemma AddedSymmetric(c: (string, string), u: string, v: string)
    ensures multiset(Added(c, u))[v] == multiset(Added(c, v))[u]
  {
  }

  /** The adjacency is symmetric: `v` is listed for `u` exactly as often
      as `u` is listed for `v`. */
  lemma {:induction false} NeighboursSymmetric(conns: seq<(string, string)>, u: string, v: string)
    ensures multiset(Neighbours(conns, u))[v] == multiset(Neighbours(conns, v))[u]
  {
    if conns != [] {
      var p := conns[..|conns| - 1];
      var c := conns[|conns| - 1];
      NeighboursSymmetric(p, u, v);
      NeighboursLast(conns, u);
      NeighboursLast(conns, v);
      AddedSymmetric(c, u, v);
    }
  }

  /** A name is a neighbour of `u` only through a connection joining them. */
  lemma {:induction false} NeighbourHasConnection(conns: seq<(string, string)>, u: string, v: string)
    requires v in Neighbours(conns, u)
    ensures (u, v) in conns || (v, u) in conns
  {
    var n := |conns| - 1;
    if v !in Neighbours(conns[..n], u) {
      assert conns[n] in conns;
    } else {
      NeighbourHasConnection(conns[..n], u, v);
      assert forall c :: c in conns[..n] ==> c in conns;
    }
  }

  lemma {:induction false} ConnectionGivesNeighbour(conns: seq<(string, string)>, u: string, v: string)
    requires (u, v) in conns
    ensures v in Neighbours(conns, u) && u in Neighbours(conns, v)
  {
    var n := |conns| - 1;
    if conns[n] != (u, v) {
      assert (u, v) in conns[..n];
      ConnectionGivesNeighbour(conns[..n], u, v);
    }
  }

  // ---------------------------------------------------------------------
  // Reachability

  /** A walk of one or more names, each next one listed as a neighbour of
      the one before. */
  ghost predicate IsWalk(lists: map<string, seq<string>>, p: seq<string>)
  {
    |p| >= 1 && forall i :: 0 <= i < |p| - 1 ==> p[i + 1] in AdjOf(lists, p[i])
  }

  ghost predicate Reaches(lists: map<string, seq<string>>, from: string, to: string)
  {
    exists p :: IsWalk(lists, p) && p[0] == from && p[|p| - 1] == to
  }

  /** Some node of the given type is reachable, the start itself included. */
  ghost predicate ReachesKind(lists: map<string, seq<string>>, nodeMap: map<string, SimplifiedNode>, start: string, kind: string)
  {
    exists v :: v in nodeMap && nodeMap[v].kind == kind && Reaches(lists, start, v)
  }

  lemma ReachesSelf(lists: map<string, seq<string>>, x: string)
    ensures Reaches(lists, x, x)
  {
    assert IsWalk(lists, [x]);
  }

  lemma ReachesStep(lists: map<string, seq<string>>, from: string, mid: string, to: string)
    requires Reaches(lists, from, mid) && to in AdjOf(lists, mid)
    ensures Reaches(lists, from, to)
  {
    var p :| IsWalk(lists, p) && p[0] == from && p[|p| - 1] == mid;
    var q := p + [to];
    assert forall i :: 0 <= i < |q| - 1 ==> q[i + 1] in AdjOf(lists, q[i]) by {
      forall i | 0 <= i < |q| - 1 ensures q[i + 1] in AdjOf(lists, q[i]) {
        if i < |p| - 1 {
          assert q[i] == p[i] && q[i + 1] == p[i + 1];
        }
      }
    }
    assert IsWalk(lists, q);
  }

  /** A set of names closed under taking neighbours. */
  ghost predicate Closed(lists: map<string, seq<string>>, s: set<string>)
  {
    forall x :: x in s ==> forall y :: y in AdjOf(lists, x) ==> y in s
  }

  lemma {:induction false} WalkStaysIn(lists: map<string, seq<string>>, s: set<string>, p: seq<string>, k: nat)
    requires IsWalk(lists, p) && p[0] in s && Closed(lists, s) && k < |p|
    ensures p[k] in s
  {
    if k > 0 {
      WalkStaysIn(lists, s, p, k - 1);
    }
  }

  /** A closed set holding the start holds everything reachable from it. */
  lemma ClosedHoldsReachable(lists: map<string, seq<string>>, s: set<string>, from: string, to: string)
    requires from in s && Closed(lists, s) && Reaches(lists, from, to)
    ensures to in s
  {
    var p :| IsWalk(lists, p) && p[0] == from && p[|p| - 1] == to;
    WalkStaysIn(lists, s, p, |p| - 1);
  }

  /** What the search keeps: everything on the stack or visited is a known
      node reachable from the start, no visited node has the target type,
      and every neighbour of a visited node is visited or on the stack. */
  ghost predicate SearchState(lists: map<string, seq<string>>, nodeMap: map<string, SimplifiedNode>, start: string,
                              target: string, stack: seq<string>, visited: set<string>)
  {
    (forall x :: x in stack ==> x in nodeMap && Reaches(lists, start, x)) &&
    (forall x :: x in visited ==> x in nodeMap && nodeMap[x].kind != target && Reaches(lists, start, x)) &&
    (forall x :: x in visited ==> forall y :: y in AdjOf(lists, x) ==> y in visited || y in stack) &&
    (start in visited || start in stack)
  }

  /** The top of the stack is a known node reachable from the start. */
  lemma PopSplits(lists: map<string, seq<string>>, nodeMap: map<string, SimplifiedNode>, start: string,
                  target: string, stack: seq<string>, visited: set<string>)
    requires SearchState(lists, nodeMap, start, target, stack, visited) && stack != []
    ensures stack == stack[..|stack| - 1] + [stack[|stack| - 1]]
    ensures stack[|stack| - 1] in nodeMap && Reaches(lists, start, stack[|stack| - 1])
  {
  }

  /** Popping a visited name keeps the search state. */
  lemma PopVisited(lists: map<string, seq<string>>, nodeMap: map<string, SimplifiedNode>, start: string,
                   target: string, stack: seq<string>, curr: string, visited: set<string>)
    requires SearchState(lists, nodeMap, start, target, stack + [curr], visited) && curr in visited
    ensures SearchState(lists, nodeMap, start, target, stack, visited)
  {
  }

  /** Visiting a popped name of another type and pushing its unvisited
      neighbours keeps the search state. */
  lemma VisitKeeps(lists: map<string, seq<string>>, nodeMap: map<string, SimplifiedNode>, start: string,
                   target: string, stack: seq<string>, curr: string, visited: set<string>, pushed: seq<string>)
    requires forall u :: u in lists ==> forall v :: v in lists[u] ==> v in nodeMap
    requires SearchState(lists, nodeMap, start, target, stack + [curr], visited)
    requires nodeMap[curr].kind != target
    requires forall y :: y in AdjOf(lists, curr) ==> y in visited + {curr} || y in pushed
    requires forall y :: y in pushed ==> y in stack || y in AdjOf(lists, curr)
    requires forall y :: y in stack ==> y in pushed
    ensures SearchState(lists, nodeMap, start, target, pushed, visited + {curr})
  {
    forall y | y in AdjOf(lists, curr)
      ensures y in nodeMap && Reaches(lists, start, y)
    {
      ReachesStep(lists, start, curr, y);
    }
  }

  /** An emptied stack leaves every reachable node visited, so none has the
      target type. */
  lemma SearchExhausted(lists: map<string, seq<string>>, nodeMap: map<string, SimplifiedNode>, start: string,
                        target: string, visited: set<string>)
    requires SearchState(lists, nodeMap, start, target, [], visited)
    ensures !ReachesKind(lists, nodeMap, start, target)
  {
    assert Closed(lists, visited);
    forall v | v in nodeMap && Reaches(lists, start, v)
      ensures nodeMap[v].kind != target
    {
      ClosedHoldsReachable(lists, visited, start, v);
    }
  }

  /** `is_reachable`: a depth-first search from `start` that stops at the
      first node of the target type. */
  method IsReachable(start: string, target: string, lists: map<string, seq<string>>, nodeMap: map<string, SimplifiedNode>)
    returns (b: bool)
    requires start in nodeMap
    requires forall u :: u in lists ==> forall v :: v in lists[u] ==> v in nodeMap
    ensures b <==> ReachesKind(lists, nodeMap, start, target)
  {
    var stack := [start];
    var visited: set<string> := {};
    ReachesSelf(lists, start);
    while stack != []
      invariant visited <= nodeMap.Keys
      invariant SearchState(lists, nodeMap, start, target, stack, visited)
      decreases |nodeMap.Keys - visited|, |stack|
    {
      var curr := stack[|stack| - 1];
      var popped := stack[..|stack| - 1];
      PopSplits(lists, nodeMap, start, target, stack, visited);
      if curr in visited {
        PopVisited(lists, nodeMap, start, target, popped, curr, visited);
        stack := popped;
      } else {
        if nodeMap[curr].kind == target {
          return true;
        }
        var pushed := PushUnvisited(popped, AdjOf(lists, curr), visited + {curr});
        VisitKeeps(lists, nodeMap, start, target, popped, curr, visited, pushed);
        VisitingShrinks(nodeMap.Keys, visited, curr);
        stack := pushed;
        visited := visited + {curr};
      }
    }
    SearchExhausted(lists, nodeMap, start, target, visited);
    return false;
  }

  /** The inner loop of `is_reachable`: push every neighbour not yet
      visited. */
  method PushUnvisited(stack: seq<string>, nbrs: seq<string>, visited: set<string>) returns (s: seq<string>)
    ensures forall y :: y in nbrs ==> y in visited || y in s
    ensures forall y :: y in s ==> y in stack || y in nbrs
    ensures forall y :: y in stack ==> y in s
  {
    s := stack;
    var k := 0;
    while k < |nbrs|
      invariant k <= |nbrs|
      invariant forall y :: y in nbrs[..k] ==> y in visited || y in s
      invariant forall y :: y in s ==> y in stack || y in nbrs
      invariant forall y :: y in stack ==> y in s
    {
      assert nbrs[..k + 1] == nbrs[..k] + [nbrs[k]];
      if nbrs[k] !in visited {
        s := s + [nbrs[k]];
      }
      k := k + 1;
    }
    assert nbrs[..k] == nbrs;
  }

  // ---------------------------------------------------------------------
  // Rule 1: node types

  function InvalidTypeMessage(n: SimplifiedNode): string
  {
    "Node '" + n.name + "' has invalid type '" + n.kind + "'."
  }

  function AdapterConfigMessage(n: SimplifiedNode): string
  {
    "Adapter '" + n.name + "' is missing network config (needs classical_network & quantum_network)."
  }

  /** A node of an admitted type; an adapter names both of its networks. */
  predicate WellTyped(n: SimplifiedNode)
  {
    KnownKind(n.kind) && (n.kind == "Adapter" ==> Truthy(n.classicalNetwork) && Truthy(n.quantumNetwork))
  }

  /** The messages one node contributes to `check_node_types`; an adapter
      has an admitted type, so at most one message results. */
  function NodeTypeErrors(n: SimplifiedNode): (r: seq<string>)
    ensures r == [] <==> WellTyped(n)
  {
    if !KnownKind(n.kind) then [InvalidTypeMessage(n)]
    else if n.kind == "Adapter" && !(Truthy(n.classicalNetwork) && Truthy(n.quantumNetwork)) then [AdapterConfigMessage(n)]
    else []
  }

  function TypeErrors(nodes: seq<SimplifiedNode>): seq<string>
  {
    if nodes == [] then [] else NodeTypeErrors(nodes[0]) + TypeErrors(nodes[1..])
  }

  /** The type check reports exactly the messages of the ill-typed nodes,
      and so reports nothing iff every node is well typed. */
  lemma {:induction false} TypeErrorsExact(nodes: seq<SimplifiedNode>)
    ensures forall m :: m in TypeErrors(nodes) <==> exists i :: 0 <= i < |nodes| && m in NodeTypeErrors(nodes[i])
    ensures TypeErrors(nodes) == [] <==> forall i :: 0 <= i < |nodes| ==> WellTyped(nodes[i])
  {
    if nodes != [] {
      TypeErrorsExact(nodes[1..]);
      forall m | m in TypeErrors(nodes)
        ensures exists i :: 0 <= i < |nodes| && m in NodeTypeErrors(nodes[i])
      {
        if m !in NodeTypeErrors(nodes[0]) {
          var i :| 0 <= i < |nodes| - 1 && m in NodeTypeErrors(nodes[1..][i]);
          assert m in NodeTypeErrors(nodes[i + 1]);
        }
      }
      forall m, i | 0 <= i < |nodes| && m in NodeTypeErrors(nodes[i])
        ensures m in TypeErrors(nodes)
      {
        if i > 0 {
          assert nodes[i] == nodes[1..][i - 1];
        }
      }
      if TypeErrors(nodes) != [] {
        var m := TypeErrors(nodes)[0];
        assert m in TypeErrors(nodes);
      }
    }
  }

  /** `check_node_types`. */
  method CheckNodeTypes(nodes: seq<SimplifiedNode>) returns (errors: seq<string>)
    ensures errors == TypeErrors(nodes)
  {
    errors := [];
    var i := 0;
    assert nodes[i..] == nodes;
    while i < |nodes|
      invariant i <= |nodes|
      invariant TypeErrors(nodes) == errors + TypeErrors(nodes[i..])
    {
      var node := nodes[i];
      ghost var before := errors;
      assert nodes[i..][1..] == nodes[i + 1..];
      assert TypeErrors(nodes) == before + (NodeTypeErrors(node) + TypeErrors(nodes[i + 1..]));
      if !KnownKind(node.kind) {
        errors := errors + [InvalidTypeMessage(node)];
      }
      if node.kind == "Adapter" {
        if !Truthy(node.classicalNetwork) || !Truthy(node.quantumNetwork) {
          errors := errors + [AdapterConfigMessage(node)];
        }
      }
      AppendStep(before, errors, NodeTypeErrors(node), TypeErrors(nodes[i + 1..]));
      i := i + 1;
    }
  }

  lemma AppendStep(before: seq<string>, errors: seq<string>, mine: seq<string>, rest: seq<string>)
    requires errors == before + mine
    ensures before + (mine + rest) == errors + rest
  {
  }

  // ---------------------------------------------------------------------
  // Rule 3: layer separation

  const ClassicalKinds: set<string> := {"ClassicalHost", "ClassicalRouter"}
  const QuantumKinds: set<string> := {"QuantumHost", "QuantumRepeater"}

  /** A check that may raise: `None` is the raised lookup error. */
  function Append(a: Option<seq<string>>, b: Option<seq<string>>): Option<seq<string>>
  {
    if a.Some? && b.Some? then Some(a.value + b.value) else None
  }

  lemma AppendUnit(b: Option<seq<string>>)
    ensures Append(Some([]), b) == b
  {
    if b.Some? {
      assert [] + b.value == b.value;
    }
  }

  /** A composed check reports nothing iff both parts report nothing. */
  lemma AppendEmpty(a: Option<seq<string>>, b: Option<seq<string>>)
    ensures Append(a, b) == Some([]) <==> a == Some([]) && b == Some([])
  {
    if a.Some? && b.Some? {
      assert |a.value + b.value| == |a.value| + |b.value|;
    }
  }

  lemma AppendAssoc(e: seq<string>, b: Option<seq<string>>, c: Option<seq<string>>)
    ensures Append(Some(e), Append(b, c)) == Append(Append(Some(e), b), c)
  {
    if b.Some? && c.Some? {
      assert e + (b.value + c.value) == (e + b.value) + c.value;
    }
  }

  function ClassicalQuantumMessage(u: string, v: string): string
  {
    "Physics Violation: Classical '" + u + "' connected directly to Quantum '" + v + "'."
  }

  function AdapterAdapterMessage(u: string, v: string): string
  {
    "Logic Error: Direct Adapter-to-Adapter connection between '" + u + "' and '" + v + "'."
  }

  /** The layer rule for one adjacency from a node of type `uk` to `v`: a
      classical node or adapter needs its neighbour to be a node; a
      classical node never touches a quantum one and two adapters never
      touch. */
  predicate Separated(uk: string, v: string, nodeMap: map<string, SimplifiedNode>)
  {
    (uk in ClassicalKinds || uk == "Adapter") ==>
      v in nodeMap && !(uk in ClassicalKinds && nodeMap[v].kind in QuantumKinds) &&
      !(uk == "Adapter" && nodeMap[v].kind == "Adapter")
  }

  /** One adjacency of `check_connection_physics`; the neighbour's type is
      looked up only when the first operand of a test holds. A node is never
      both classical and an adapter, so at most one message results. */
  function PairPhysics(u: string, uk: string, v: string, nodeMap: map<string, SimplifiedNode>): (r: Option<seq<string>>)
    ensures r.None? <==> (uk in ClassicalKinds || uk == "Adapter") && v !in nodeMap
    ensures r == Some([]) <==> Separated(uk, v, nodeMap)
  {
    if (uk in ClassicalKinds || uk == "Adapter") && v !in nodeMap then None
    else if uk in ClassicalKinds && nodeMap[v].kind in QuantumKinds then Some([ClassicalQuantumMessage(u, v)])
    else if uk == "Adapter" && nodeMap[v].kind == "Adapter" then Some([AdapterAdapterMessage(u, v)])
    else Some([])
  }

  function NeighbourPhysics(u: string, uk: string, vs: seq<string>, nodeMap: map<string, SimplifiedNode>): Option<seq<string>>
  {
    if vs == [] then Some([]) else Append(PairPhysics(u, uk, vs[0], nodeMap), NeighbourPhysics(u, uk, vs[1..], nodeMap))
  }

  /** The messages of one key of the adjacency; a key that is not a node is
      skipped. */
  function KeyPhysics(u: string, lists: map<string, seq<string>>, nodeMap: map<string, SimplifiedNode>): Option<seq<string>>
  {
    if u in nodeMap then NeighbourPhysics(u, nodeMap[u].kind, AdjOf(lists, u), nodeMap) else Some([])
  }

  function PhysicsErrors(keys: seq<string>, lists: map<string, seq<string>>, nodeMap: map<string, SimplifiedNode>): Option<seq<string>>
  {
    if keys == [] then Some([]) else Append(KeyPhysics(keys[0], lists, nodeMap), PhysicsErrors(keys[1..], lists, nodeMap))
  }

  lemma {:induction false} NeighbourPhysicsMeaning(u: string, uk: string, vs: seq<string>, nodeMap: map<string, SimplifiedNode>)
    ensures NeighbourPhysics(u, uk, vs, nodeMap).Some? <==> forall j :: 0 <= j < |vs| ==> PairPhysics(u, uk, vs[j], nodeMap).Some?
    ensures NeighbourPhysics(u, uk, vs, nodeMap) == Some([]) <==> forall j :: 0 <= j < |vs| ==> Separated(uk, vs[j], nodeMap)
  {
    if vs != [] {
      NeighbourPhysicsMeaning(u, uk, vs[1..], nodeMap);
      AppendEmpty(PairPhysics(u, uk, vs[0], nodeMap), NeighbourPhysics(u, uk, vs[1..], nodeMap));
      assert forall j :: 1 <= j < |vs| ==> vs[j] == vs[1..][j - 1];
    }
  }

  /** Every key of the adjacency that is a node keeps the layer rule with
      each of its neighbours. */
  predicate LayersSeparated(keys: seq<string>, lists: map<string, seq<string>>, nodeMap: map<string, SimplifiedNode>)
  {
    forall i, j :: 0 <= i < |keys| && keys[i] in nodeMap && 0 <= j < |AdjOf(lists, keys[i])| ==>
      Separated(nodeMap[keys[i]].kind, AdjOf(lists, keys[i])[j], nodeMap)
  }

  /** The lookups of the physics check succeed: each classical node or
      adapter among the keys has only nodes as neighbours. */
  predicate PhysicsLookupsSucceed(keys: seq<string>, lists: map<string, seq<string>>, nodeMap: map<string, SimplifiedNode>)
  {
    forall i, j :: 0 <= i < |keys| && keys[i] in nodeMap && 0 <= j < |AdjOf(lists, keys[i])| ==>
      (nodeMap[keys[i]].kind in ClassicalKinds || nodeMap[keys[i]].kind == "Adapter") ==> AdjOf(lists, keys[i])[j] in nodeMap
  }

  /** `check_connection_physics` raises exactly when a classical node or an
      adapter has a neighbour that is not a node, and reports nothing
      exactly when every adjacency keeps the layer rule. */
  lemma {:induction false} PhysicsErrorsMeaning(keys: seq<string>, lists: map<string, seq<string>>, nodeMap: map<string, SimplifiedNode>)
    ensures PhysicsErrors(keys, lists, nodeMap).Some? <==> PhysicsLookupsSucceed(keys, lists, nodeMap)
    ensures PhysicsErrors(keys, lists, nodeMap) == Some([]) <==> LayersSeparated(keys, lists, nodeMap)
  {
    if keys != [] {
      PhysicsErrorsMeaning(keys[1..], lists, nodeMap);
      var u := keys[0];
      AppendEmpty(KeyPhysics(u, lists, nodeMap), PhysicsErrors(keys[1..], lists, nodeMap));
      if u in nodeMap {
        NeighbourPhysicsMeaning(u, nodeMap[u].kind, AdjOf(lists, u), nodeMap);
      }
      assert forall i :: 1 <= i < |keys| ==> keys[i] == keys[1..][i - 1];
    }
  }

  /** A classical-to-quantum adjacency is reported by its message. */
  lemma {:induction false} PhysicsReportsClassicalQuantum(keys: seq<string>, lists: map<string, seq<string>>,
                                                           nodeMap: map<string, SimplifiedNode>, i: nat, v: string)
    requires PhysicsErrors(keys, lists, nodeMap).Some?
    requires i < |keys| && keys[i] in nodeMap && nodeMap[keys[i]].kind in ClassicalKinds
    requires v in AdjOf(lists, keys[i]) && v in nodeMap && nodeMap[v].kind in QuantumKinds
    ensures ClassicalQuantumMessage(keys[i], v) in PhysicsErrors(keys, lists, nodeMap).value
  {
    if i == 0 {
      var u := keys[0];
      NeighbourPhysicsHolds(u, nodeMap[u].kind, AdjOf(lists, u), nodeMap, v);
    } else {
      assert keys[i] == keys[1..][i - 1];
      PhysicsReportsClassicalQuantum(keys[1..], lists, nodeMap, i - 1, v);
    }
  }

  lemma {:induction false} NeighbourPhysicsHolds(u: string, uk: string, vs: seq<string>, nodeMap: map<string, SimplifiedNode>, v: string)
    requires NeighbourPhysics(u, uk, vs, nodeMap).Some?
    requires uk in ClassicalKinds && v in vs && v in nodeMap && nodeMap[v].kind in QuantumKinds
    ensures ClassicalQuantumMessage(u, v) in NeighbourPhysics(u, uk, vs, nodeMap).value
  {
    if vs[0] != v {
      NeighbourPhysicsHolds(u, uk, vs[1..], nodeMap, v);
    }
  }

  /** The inner loop of `check_connection_physics` over the neighbours of
      `u`, a node of type `uk`. */
  method CheckNeighbourPhysics(u: string, uk: string, vs: seq<string>, nodeMap: map<string, SimplifiedNode>)
    returns (r: Option<seq<string>>)
    ensures r == NeighbourPhysics(u, uk, vs, nodeMap)
  {
    var j := 0;
    var mine := [];
    assert vs[j..] == vs;
    AppendUnit(NeighbourPhysics(u, uk, vs, nodeMap));
    while j < |vs|
      invariant j <= |vs|
      invariant NeighbourPhysics(u, uk, vs, nodeMap) == Append(Some(mine), NeighbourPhysics(u, uk, vs[j..], nodeMap))
    {
      var v := vs[j];
      assert vs[j..][1..] == vs[j + 1..];
      AppendAssoc(mine, PairPhysics(u, uk, v, nodeMap), NeighbourPhysics(u, uk, vs[j + 1..], nodeMap));
      if uk in ClassicalKinds || uk == "Adapter" {
        if v !in nodeMap {
          return None;
        }
      }
      var m0 := mine;
      assert "Adapter" !in ClassicalKinds;
      if uk in ClassicalKinds && nodeMap[v].kind in QuantumKinds {
        mine := mine + [ClassicalQuantumMessage(u, v)];
      }
      if uk == "Adapter" && nodeMap[v].kind == "Adapter" {
        mine := mine + [AdapterAdapterMessage(u, v)];
      }
      assert Some(mine) == Append(Some(m0), PairPhysics(u, uk, v, nodeMap)) by {
        if mine == m0 {
          assert m0 + [] == m0;
        }
      }
      j := j + 1;
    }
    assert vs[j..] == [] && mine + [] == mine;
    return Some(mine);
  }

  /** `check_connection_physics`: `None` when a lookup raises. */
  method CheckConnectionPhysics(keys: seq<string>, lists: map<string, seq<string>>, nodeMap: map<string, SimplifiedNode>)
    returns (r: Option<seq<string>>)
    ensures r == PhysicsErrors(keys, lists, nodeMap)
  {
    var errors := [];
    var i := 0;
    assert keys[i..] == keys;
    AppendUnit(PhysicsErrors(keys, lists, nodeMap));
    while i < |keys|
      invariant i <= |keys|
      invariant PhysicsErrors(keys, lists, nodeMap) == Append(Some(errors), PhysicsErrors(keys[i..], lists, nodeMap))
    {
      var u := keys[i];
      assert keys[i..][1..] == keys[i + 1..];
      AppendAssoc(errors, KeyPhysics(u, lists, nodeMap), PhysicsErrors(keys[i + 1..], lists, nodeMap));
      if u in nodeMap {
        var mine := CheckNeighbourPhysics(u, nodeMap[u].kind, AdjOf(lists, u), nodeMap);
        if mine.None? {
          return None;
        }
        errors := errors + mine.value;
      } else {
        assert errors + [] == errors;
      }
      i := i + 1;
    }
    assert keys[i..] == [] && errors + [] == errors;
    return Some(errors);
  }

  // ---------------------------------------------------------------------
  // Rules 2 and 5: port limits

  function QHostDegreeMessage(name: string, degree: nat): string
  {
    "Port Error: QHost '" + name + "' has " + NatToString(degree) + " connections. Must be exactly 2."
  }

  function QHostAdapterMessage(name: string, count: nat): string
  {
    "Wiring Error: QHost '" + name + "' must have exactly 1 Adapter connection, but has " + NatToString(count) + "."
  }

  function QHostLinkMessage(name: string, count: nat): string
  {
    "Wiring Error: QHost '" + name + "' must have exactly 1 quantum link connection (to QuantumHost or QuantumRepeater), but has " +
    NatToString(count) + "."
  }

  function AdapterDegreeMessage(name: string, degree: nat): string
  {
    "Port Error: Adapter '" + name + "' has " + NatToString(degree) + " connections. Must be exactly 2."
  }

  function AdapterWiringMessage(name: string): string
  {
    "Wiring Error: Adapter '" + name + "' must connect to 1 Classical and 1 Quantum node."
  }

  function RepeaterDegreeMessage(name: string, degree: nat): string
  {
    "Port Error: QRepeater '" + name + "' has " + NatToString(degree) + " connections. Must be strictly 2."
  }

  /** `neighbor_types.count("Adapter")`. */
  function AdapterCount(kinds: seq<string>): nat
  {
    multiset(kinds)["Adapter"]
  }

  /** The neighbours that are quantum hosts or repeaters. */
  function QuantumLinkCount(kinds: seq<string>): nat
  {
    multiset(kinds)["QuantumHost"] + multiset(kinds)["QuantumRepeater"]
  }

  /** Some neighbour type is a classical one. */
  predicate HasClassical(kinds: seq<string>)
  {
    exists k :: k in kinds && k in ClassicalKinds
  }

  /** The messages `check_port_constraints` gives a node of type `kind`
      whose neighbours have the types `kinds`. */
  function NodePortErrors(name: string, kind: string, kinds: seq<string>): seq<string>
  {
    if kind == "QuantumHost" then
      if |kinds| != 2 then [QHostDegreeMessage(name, |kinds|)]
      else
        (if AdapterCount(kinds) != 1 then [QHostAdapterMessage(name, AdapterCount(kinds))] else []) +
        (if QuantumLinkCount(kinds) != 1 then [QHostLinkMessage(name, QuantumLinkCount(kinds))] else [])
    else if kind == "Adapter" then
      if |kinds| != 2 then [AdapterDegreeMessage(name, |kinds|)]
      else if !(HasClassical(kinds) && "QuantumHost" in kinds) then [AdapterWiringMessage(name)]
      else []
    else if kind == "QuantumRepeater" then
      if |kinds| != 2 then [RepeaterDegreeMessage(name, |kinds|)] else []
    else []
  }

  /** Exactly two neighbours: one of type `one`, the other of a type in
      `others`, in either order. */
  predicate PairedWith(kinds: seq<string>, one: string, others: set<string>)
  {
    |kinds| == 2 && ((kinds[0] == one && kinds[1] in others) || (kinds[1] == one && kinds[0] in others))
  }

  /** The wiring the port rules admit: a quantum host sits between one
      adapter and one quantum host or repeater, an adapter between one
      classical node and one quantum host, and a repeater has two
      neighbours. */
  predicate PortsRespected(kind: string, kinds: seq<string>)
  {
    (kind == "QuantumHost" ==> PairedWith(kinds, "Adapter", QuantumKinds)) &&
    (kind == "Adapter" ==> PairedWith(kinds, "QuantumHost", ClassicalKinds)) &&
    (kind == "QuantumRepeater" ==> |kinds| == 2)
  }

  /** How often `x` occurs among two types. */
  lemma CountTwo(kinds: seq<string>, x: string)
    requires |kinds| == 2
    ensures multiset(kinds)[x] == (if kinds[0] == x then 1 else 0) + (if kinds[1] == x then 1 else 0)
  {
    assert kinds == [kinds[0]] + [kinds[1]];
  }

  /** With two neighbours, one adapter and one quantum link is the wiring
      of a quantum host. */
  lemma HostCountsMeaning(kinds: seq<string>)
    requires |kinds| == 2
    ensures AdapterCount(kinds) == 1 && QuantumLinkCount(kinds) == 1 <==> PairedWith(kinds, "Adapter", QuantumKinds)
  {
    CountTwo(kinds, "Adapter");
    CountTwo(kinds, "QuantumHost");
    CountTwo(kinds, "QuantumRepeater");
  }

  /** A quantum host passes the counting rules exactly when it sits between
      an adapter and a quantum host or repeater. */
  lemma HostPortsMeaning(name: string, kinds: seq<string>)
    ensures NodePortErrors(name, "QuantumHost", kinds) == [] <==> PairedWith(kinds, "Adapter", QuantumKinds)
  {
    if |kinds| == 2 {
      HostCountsMeaning(kinds);
      var errors := NodePortErrors(name, "QuantumHost", kinds);
      if AdapterCount(kinds) != 1 {
        assert |errors| > 0;
      } else if QuantumLinkCount(kinds) != 1 {
        assert |errors| > 0;
      }
    }
  }

  /** An adapter passes exactly when it sits between a classical node and
      a quantum host. */
  lemma AdapterPortsMeaning(name: string, kinds: seq<string>)
    ensures NodePortErrors(name, "Adapter", kinds) == [] <==> PairedWith(kinds, "QuantumHost", ClassicalKinds)
  {
    if |kinds| == 2 {
      assert "QuantumHost" !in ClassicalKinds;
      assert kinds[0] in kinds && kinds[1] in kinds;
    }
  }

  /** The counting rules of `check_port_constraints` accept exactly the
      admitted wiring. */
  lemma NodePortErrorsMeaning(name: string, kind: string, kinds: seq<string>)
    ensures NodePortErrors(name, kind, kinds) == [] <==> PortsRespected(kind, kinds)
  {
    if kind == "QuantumHost" {
      HostPortsMeaning(name, kinds);
    } else if kind == "Adapter" {
      AdapterPortsMeaning(name, kinds);
    }
  }

  /** The types of a list of known nodes. */
  function KindsOf(vs: seq<string>, nodeMap: map<string, SimplifiedNode>): (r: seq<string>)
    requires forall v :: v in vs ==> v in nodeMap
    ensures |r| == |vs| && forall j :: 0 <= j < |vs| ==> r[j] == nodeMap[vs[j]].kind
  {
    seq(|vs|, j requires 0 <= j < |vs| => nodeMap[vs[j]].kind)
  }

  predicate AllKnown(vs: seq<string>, nodeMap: map<string, SimplifiedNode>)
  {
    forall v :: v in vs ==> v in nodeMap
  }

  /** The port check of one key: its own lookup and its neighbours' lookups
      raise when a name is not a node. */
  function KeyPorts(u: string, lists: map<string, seq<string>>, nodeMap: map<string, SimplifiedNode>): Option<seq<string>>
  {
    if u !in nodeMap || !AllKnown(AdjOf(lists, u), nodeMap) then None
    else Some(NodePortErrors(u, nodeMap[u].kind, KindsOf(AdjOf(lists, u), nodeMap)))
  }

  function PortErrors(keys: seq<string>, lists: map<string, seq<string>>, nodeMap: map<string, SimplifiedNode>): Option<seq<string>>
  {
    if keys == [] then Some([]) else Append(KeyPorts(keys[0], lists, nodeMap), PortErrors(keys[1..], lists, nodeMap))
  }

  /** The key and each of its neighbours is a node. */
  predicate KeyLookupsOk(u: string, lists: map<string, seq<string>>, nodeMap: map<string, SimplifiedNode>)
  {
    u in nodeMap && AllKnown(AdjOf(lists, u), nodeMap)
  }

  /** The key is a node wired as the port rules admit. */
  predicate KeyWired(u: string, lists: map<string, seq<string>>, nodeMap: map<string, SimplifiedNode>)
  {
    KeyLookupsOk(u, lists, nodeMap) && PortsRespected(nodeMap[u].kind, KindsOf(AdjOf(lists, u), nodeMap))
  }

  /** Every key and every neighbour of a key is a node. */
  predicate PortLookupsSucceed(keys: seq<string>, lists: map<string, seq<string>>, nodeMap: map<string, SimplifiedNode>)
  {
    forall i :: 0 <= i < |keys| ==> KeyLookupsOk(keys[i], lists, nodeMap)
  }

  /** Every key is wired as the port rules admit. */
  predicate WiringRespected(keys: seq<string>, lists: map<string, seq<string>>, nodeMap: map<string, SimplifiedNode>)
  {
    forall i :: 0 <= i < |keys| ==> KeyWired(keys[i], lists, nodeMap)
  }

  lemma LookupsTail(keys: seq<string>, lists: map<string, seq<string>>, nodeMap: map<string, SimplifiedNode>)
    requires keys != []
    ensures PortLookupsSucceed(keys, lists, nodeMap) <==> KeyLookupsOk(keys[0], lists, nodeMap) && PortLookupsSucceed(keys[1..], lists, nodeMap)
  {
    assert forall i :: 1 <= i < |keys| ==> keys[i] == keys[1..][i - 1];
  }

  lemma WiringTail(keys: seq<string>, lists: map<string, seq<string>>, nodeMap: map<string, SimplifiedNode>)
    requires keys != []
    ensures WiringRespected(keys, lists, nodeMap) <==> KeyWired(keys[0], lists, nodeMap) && WiringRespected(keys[1..], lists, nodeMap)
  {
    assert forall i :: 1 <= i < |keys| ==> keys[i] == keys[1..][i - 1];
  }

  /** The port check of one key raises exactly when a lookup fails, and
      reports nothing exactly when the key is wired as admitted. */
  lemma KeyPortsMeaning(u: string, lists: map<string, seq<string>>, nodeMap: map<string, SimplifiedNode>)
    ensures KeyPorts(u, lists, nodeMap).Some? <==> KeyLookupsOk(u, lists, nodeMap)
    ensures KeyPorts(u, lists, nodeMap) == Some([]) <==> KeyWired(u, lists, nodeMap)
  {
    if KeyLookupsOk(u, lists, nodeMap) {
      NodePortErrorsMeaning(u, nodeMap[u].kind, KindsOf(AdjOf(lists, u), nodeMap));
    }
  }

  /** `check_port_constraints` raises exactly when a key or a neighbour is
      not a node, and reports nothing exactly when every key is wired as
      admitted. */
  lemma {:induction false} PortErrorsMeaning(keys: seq<string>, lists: map<string, seq<string>>, nodeMap: map<string, SimplifiedNode>)
    ensures PortErrors(keys, lists, nodeMap).Some? <==> PortLookupsSucceed(keys, lists, nodeMap)
    ensures PortErrors(keys, lists, nodeMap) == Some([]) <==> WiringRespected(keys, lists, nodeMap)
  {
    if keys != [] {
      PortErrorsMeaning(keys[1..], lists, nodeMap);
      KeyPortsMeaning(keys[0], lists, nodeMap);
      AppendEmpty(KeyPorts(keys[0], lists, nodeMap), PortErrors(keys[1..], lists, nodeMap));
      LookupsTail(keys, lists, nodeMap);
      WiringTail(keys, lists, nodeMap);
    }
  }

  /** `check_port_constraints`: `None` when a lookup raises. */
  method CheckPortConstraints(keys: seq<string>, lists: map<string, seq<string>>, nodeMap: map<string, SimplifiedNode>)
    returns (r: Option<seq<string>>)
    ensures r == PortErrors(keys, lists, nodeMap)
  {
    var errors := [];
    var i := 0;
    assert keys[i..] == keys;
    AppendUnit(PortErrors(keys, lists, nodeMap));
    while i < |keys|
      invariant i <= |keys|
      invariant PortErrors(keys, lists, nodeMap) == Append(Some(errors), PortErrors(keys[i..], lists, nodeMap))
    {
      var name := keys[i];
      assert keys[i..][1..] == keys[i + 1..];
      AppendAssoc(errors, KeyPorts(name, lists, nodeMap), PortErrors(keys[i + 1..], lists, nodeMap));
      if name !in nodeMap {
        return None;
      }
      var node := nodeMap[name];
      var neighbors := AdjOf(lists, name);
      if !AllKnown(neighbors, nodeMap) {
        return None;
      }
      var kinds := KindsOf(neighbors, nodeMap);
      errors := AppendPortErrors(errors, name, node.kind, kinds);
      i := i + 1;
    }
    assert keys[i..] == [] && errors + [] == errors;
    return Some(errors);
  }

  /** The body of the loop of `check_port_constraints` for one node: the
      messages its type and its neighbours' types call for, appended to
      `errors`. */
  method AppendPortErrors(errors0: seq<string>, name: string, kind: string, kinds: seq<string>) returns (errors: seq<string>)
    ensures errors == errors0 + NodePortErrors(name, kind, kinds)
  {
    var mine: seq<string> := [];
    if kind == "QuantumHost" {
      if |kinds| != 2 {
        mine := [QHostDegreeMessage(name, |kinds|)];
      } else {
        var adapterCount := AdapterCount(kinds);
        var linkCount := QuantumLinkCount(kinds);
        var adapterErrors: seq<string> := if adapterCount != 1 then [QHostAdapterMessage(name, adapterCount)] else [];
        var linkErrors: seq<string> := if linkCount != 1 then [QHostLinkMessage(name, linkCount)] else [];
        mine := adapterErrors + linkErrors;
      }
    } else if kind == "Adapter" {
      if |kinds| != 2 {
        mine := [AdapterDegreeMessage(name, |kinds|)];
      } else {
        var hasClassical := HasClassical(kinds);
        var hasQuantum := "QuantumHost" in kinds;
        if !(hasClassical && hasQuantum) {
          mine := [AdapterWiringMessage(name)];
        }
      }
    } else if kind == "QuantumRepeater" {
      if |kinds| != 2 {
        mine := [RepeaterDegreeMessage(name, |kinds|)];
      }
    }
    errors := errors0 + mine;
  }

  // ---------------------------------------------------------------------
  // Rule 4: termination

  /** The node types that must reach a classical host. */
  const TerminalKinds: set<string> := {"QuantumHost", "QuantumRepeater", "Adapter"}

  function IsolatedMessage(name: string): string
  {
    "Termination Error: Node '" + name + "' is isolated. Cannot reach a Classical Host."
  }

  ghost function TerminationErrors(nodes: seq<SimplifiedNode>, lists: map<string, seq<string>>, nodeMap: map<string, SimplifiedNode>): seq<string>
  {
    if nodes == [] then []
    else
      (if Isolated(nodes[0], lists, nodeMap) then [IsolatedMessage(nodes[0].name)] else []) +
      TerminationErrors(nodes[1..], lists, nodeMap)
  }

  /** Every quantum host, repeater and adapter reaches a classical host. */
  ghost predicate Terminated(nodes: seq<SimplifiedNode>, lists: map<string, seq<string>>, nodeMap: map<string, SimplifiedNode>)
  {
    forall i :: 0 <= i < |nodes| ==> !Isolated(nodes[i], lists, nodeMap)
  }

  /** A quantum host, repeater or adapter that cannot reach a classical
      host. */
  ghost predicate Isolated(n: SimplifiedNode, lists: map<string, seq<string>>, nodeMap: map<string, SimplifiedNode>)
  {
    n.kind in TerminalKinds && !ReachesKind(lists, nodeMap, n.name, "ClassicalHost")
  }

  /** The termination check reports nothing iff every quantum host,
      repeater and adapter reaches a classical host. */
  lemma {:induction false} TerminationErrorsEmpty(nodes: seq<SimplifiedNode>, lists: map<string, seq<string>>, nodeMap: map<string, SimplifiedNode>)
    ensures TerminationErrors(nodes, lists, nodeMap) == [] <==> Terminated(nodes, lists, nodeMap)
  {
    if nodes != [] {
      TerminationErrorsEmpty(nodes[1..], lists, nodeMap);
      assert forall i :: 1 <= i < |nodes| ==> nodes[i] == nodes[1..][i - 1];
    }
  }

  /** Each isolated node is named by a termination message. */
  lemma {:induction false} TerminationNamesIsolated(nodes: seq<SimplifiedNode>, lists: map<string, seq<string>>,
                                                     nodeMap: map<string, SimplifiedNode>, i: nat)
    requires i < |nodes| && Isolated(nodes[i], lists, nodeMap)
    ensures IsolatedMessage(nodes[i].name) in TerminationErrors(nodes, lists, nodeMap)
  {
    if i > 0 {
      assert nodes[i] == nodes[1..][i - 1];
      TerminationNamesIsolated(nodes[1..], lists, nodeMap, i - 1);
    }
  }

  /** Each termination message names an isolated node. */
  lemma {:induction false} TerminationOnlyIsolated(nodes: seq<SimplifiedNode>, lists: map<string, seq<string>>,
                                                    nodeMap: map<string, SimplifiedNode>, m: string)
    requires m in TerminationErrors(nodes, lists, nodeMap)
    ensures exists i :: 0 <= i < |nodes| && Isolated(nodes[i], lists, nodeMap) && m == IsolatedMessage(nodes[i].name)
  {
    if !(Isolated(nodes[0], lists, nodeMap) && m == IsolatedMessage(nodes[0].name)) {
      TerminationOnlyIsolated(nodes[1..], lists, nodeMap, m);
      var i :| 0 <= i < |nodes| - 1 && Isolated(nodes[1..][i], lists, nodeMap) && m == IsolatedMessage(nodes[1..][i].name);
      assert nodes[1..][i] == nodes[i + 1];
    }
  }

  /** `check_termination`. */
  method CheckTermination(nodes: seq<SimplifiedNode>, lists: map<string, seq<string>>, nodeMap: map<string, SimplifiedNode>)
    returns (errors: seq<string>)
    requires forall i :: 0 <= i < |nodes| ==> nodes[i].name in nodeMap
    requires forall u :: u in lists ==> forall v :: v in lists[u] ==> v in nodeMap
    ensures errors == TerminationErrors(nodes, lists, nodeMap)
  {
    errors := [];
    var i := 0;
    assert nodes[i..] == nodes;
    while i < |nodes|
      invariant i <= |nodes|
      invariant TerminationErrors(nodes, lists, nodeMap) == errors + TerminationErrors(nodes[i..], lists, nodeMap)
    {
      var node := nodes[i];
      ghost var before := errors;
      assert nodes[i..][1..] == nodes[i + 1..];
      assert TerminationErrors(nodes, lists, nodeMap) ==
             before + ((if Isolated(node, lists, nodeMap) then [IsolatedMessage(node.name)] else []) +
                       TerminationErrors(nodes[i + 1..], lists, nodeMap));
      if node.kind in TerminalKinds {
        var reached := IsReachable(node.name, "ClassicalHost", lists, nodeMap);
        if !reached {
          errors := errors + [IsolatedMessage(node.name)];
        }
      }
      AppendStep(before, errors, if Isolated(node, lists, nodeMap) then [IsolatedMessage(node.name)] else [],
               TerminationErrors(nodes[i + 1..], lists, nodeMap));
      i := i + 1;
    }
  }

  // ---------------------------------------------------------------------
  // The validator

  /** The dictionary `validate_static_topology` returns, or the lookup
      error one of its graph checks raises. */
  datatype Report = Report(isValid: bool, errors: seq<string>, topologyName: string) | Crashed

  /** The de-duplicated errors and their verdict. */
  function Compile(all: seq<string>, name: string): Report
  {
    var unique := Dedup(all);
    Report(|unique| == 0, unique, name)
  }

  /** What `validate_static_topology` computes: the type check, then, only
      when it found nothing, the three graph checks over the node map and
      the adjacency list. */
  ghost function Validation(t: SimplifiedTopology): Report
  {
    var nodeMap := NodeMap(t.nodes);
    var keys := Names(t.nodes);
    var lists := AdjacencyLists(t);
    var typeErrors := TypeErrors(t.nodes);
    if typeErrors != [] then Compile(typeErrors, t.worldName)
    else
      var graph := GraphErrors(t);
      if graph.None? then Crashed else Compile(graph.value, t.worldName)
  }

  /** The errors of the three graph checks in order, or `None` when one of
      them raises. */
  ghost function GraphErrors(t: SimplifiedTopology): Option<seq<string>>
  {
    var nodeMap := NodeMap(t.nodes);
    var keys := Names(t.nodes);
    var lists := AdjacencyLists(t);
    var physics := PhysicsErrors(keys, lists, nodeMap);
    var ports := PortErrors(keys, lists, nodeMap);
    if physics.None? || ports.None? then None
    else Some(physics.value + ports.value + TerminationErrors(t.nodes, lists, nodeMap))
  }

  /** A successful port check leaves every adjacency list holding only
      nodes, as the depth-first search needs. */
  lemma LookupsCoverLists(t: SimplifiedTopology)
    requires PortErrors(Names(t.nodes), AdjacencyLists(t), NodeMap(t.nodes)).Some?
    ensures forall i :: 0 <= i < |t.nodes| ==> t.nodes[i].name in NodeMap(t.nodes)
    ensures forall u :: u in AdjacencyLists(t) ==> forall v :: v in AdjacencyLists(t)[u] ==> v in NodeMap(t.nodes)
  {
    var keys := Names(t.nodes);
    PortErrorsMeaning(keys, AdjacencyLists(t), NodeMap(t.nodes));
    assert forall i :: 0 <= i < |t.nodes| ==> NameList(t.nodes)[i] == t.nodes[i].name;
    forall u | u in AdjacencyLists(t)
      ensures AllKnown(AdjacencyLists(t)[u], NodeMap(t.nodes))
    {
      assert u in keys;
      var i :| 0 <= i < |keys| && keys[i] == u;
    }
  }

  /** `validate_static_topology`. */
  method ValidateStaticTopology(t: SimplifiedTopology) returns (r: Report)
    ensures r == Validation(t)
  {
    var nodeMap := NodeMap(t.nodes);
    var adj := BuildAdjacencyList(t);
    var allErrors := CheckNodeTypes(t.nodes);
    if allErrors == [] {
      var graph := RunGraphChecks(t, nodeMap, adj);
      if graph.None? {
        return Crashed;
      }
      allErrors := allErrors + graph.value;
      assert allErrors == graph.value;
    }
    var unique := Dedup(allErrors);
    return Report(|unique| == 0, unique, t.worldName);
  }

  /** The three graph checks of `validate_static_topology`, extending the
      error list in order. */
  method RunGraphChecks(t: SimplifiedTopology, nodeMap: map<string, SimplifiedNode>, adj: Adjacency)
    returns (r: Option<seq<string>>)
    requires nodeMap == NodeMap(t.nodes)
    requires adj.keys == Names(t.nodes) && adj.lists == AdjacencyLists(t)
    ensures r == GraphErrors(t)
  {
    var physics := CheckConnectionPhysics(adj.keys, adj.lists, nodeMap);
    if physics.None? {
      return None;
    }
    var ports := CheckPortConstraints(adj.keys, adj.lists, nodeMap);
    if ports.None? {
      return None;
    }
    LookupsCoverLists(t);
    var termination := CheckTermination(t.nodes, adj.lists, nodeMap);
    return Some(physics.value + ports.value + termination);
  }

  predicate AllWellTyped(nodes: seq<SimplifiedNode>)
  {
    forall i :: 0 <= i < |nodes| ==> WellTyped(nodes[i])
  }

  lemma DedupEmpty(s: seq<string>)
    ensures Dedup(s) == [] <==> s == []
  {
    if s != [] {
      assert s[0] in Dedup(s);
    }
  }

  /** A topology is reported valid exactly when every rule holds: all nodes
      well typed, layers separated, ports wired as admitted, and every
      quantum component reaching a classical host. The errors are
      reported once each. */
  lemma ValidIffRulesHold(t: SimplifiedTopology)
    requires Validation(t).Report?
    ensures Validation(t).topologyName == t.worldName
    ensures Distinct(Validation(t).errors)
    ensures Validation(t).isValid <==>
      AllWellTyped(t.nodes) &&
      LayersSeparated(Names(t.nodes), AdjacencyLists(t), NodeMap(t.nodes)) &&
      WiringRespected(Names(t.nodes), AdjacencyLists(t), NodeMap(t.nodes)) &&
      Terminated(t.nodes, AdjacencyLists(t), NodeMap(t.nodes))
  {
    var nodeMap := NodeMap(t.nodes);
    var keys := Names(t.nodes);
    var lists := AdjacencyLists(t);
    TypeErrorsExact(t.nodes);
    PhysicsErrorsMeaning(keys, lists, nodeMap);
    PortErrorsMeaning(keys, lists, nodeMap);
    TerminationErrorsEmpty(t.nodes, lists, nodeMap);
    if TypeErrors(t.nodes) != [] {
      DedupEmpty(TypeErrors(t.nodes));
      DedupKeepsFirstOccurrenceOrder(TypeErrors(t.nodes));
    } else {
      var all := GraphErrors(t).value;
      DedupEmpty(all);
      DedupKeepsFirstOccurrenceOrder(all);
    }
  }

  /** Some connection joins a node to a name that is not a node. */
  predicate Dangling(t: SimplifiedTopology)
  {
    exists c :: c in t.connections && ((c.0 in NameList(t.nodes)) != (c.1 in NameList(t.nodes)))
  }

  /** The port lookups fail exactly when a connection dangles. */
  lemma PortLookupsIffNotDangling(t: SimplifiedTopology)
    ensures PortLookupsSucceed(Names(t.nodes), AdjacencyLists(t), NodeMap(t.nodes)) <==> !Dangling(t)
  {
    var keys := Names(t.nodes);
    var lists := AdjacencyLists(t);
    var nodeMap := NodeMap(t.nodes);
    if Dangling(t) {
      var c :| c in t.connections && ((c.0 in NameList(t.nodes)) != (c.1 in NameList(t.nodes)));
      ConnectionGivesNeighbour(t.connections, c.0, c.1);
      var known := if c.0 in NameList(t.nodes) then c.0 else c.1;
      var other := if c.0 in NameList(t.nodes) then c.1 else c.0;
      assert known in keys;
      var i :| 0 <= i < |keys| && keys[i] == known;
      assert other in AdjOf(lists, keys[i]) && other !in nodeMap;
    } else {
      forall i | 0 <= i < |keys|
        ensures keys[i] in nodeMap && AllKnown(AdjOf(lists, keys[i]), nodeMap)
      {
        assert keys[i] in keys;
        forall v | v in AdjOf(lists, keys[i])
          ensures v in nodeMap
        {
          NeighbourHasConnection(t.connections, keys[i], v);
        }
      }
    }
  }

  /** The validator raises exactly when every node is well typed and some
      connection joins a node to a name that is not a node; a type error
      stops it before any lookup. */
  lemma CrashIffDangling(t: SimplifiedTopology)
    ensures Validation(t).Crashed? <==> AllWellTyped(t.nodes) && Dangling(t)
  {
    var keys := Names(t.nodes);
    var lists := AdjacencyLists(t);
    var nodeMap := NodeMap(t.nodes);
    TypeErrorsExact(t.nodes);
    PhysicsErrorsMeaning(keys, lists, nodeMap);
    PortErrorsMeaning(keys, lists, nodeMap);
    PortLookupsIffNotDangling(t);
    if PortLookupsSucceed(keys, lists, nodeMap) {
      assert PhysicsLookupsSucceed(keys, lists, nodeMap);
    }
  }
}
