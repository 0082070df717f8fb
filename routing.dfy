/** Classical packet forwarding at the internet exchange: the route table
    shared by every exchange, the shortest-path lookup (specified, not
    implemented: any breadth-first shortest path is acceptable), draining
    the receive buffers, and routing one packet to its next hop. */
module Routing {
  import opened Common

  // ---------------------------------------------------------------------
  // The route table's graph and the shortest-path oracle

  /** The undirected graph of the route table, as the set of edges added. */
  type Edges = set<(string, string)>

  predicate Adjacent(edges: Edges, a: string, b: string)
  {
    (a, b) in edges || (b, a) in edges
  }

  function Nodes(edges: Edges): set<string>
  {
    (set e | e in edges :: e.0) + (set e | e in edges :: e.1)
  }

  /** `p` walks from `from` to `to` along edges of the graph. */
  predicate IsWalk(edges: Edges, p: seq<string>, from: string, to: string)
  {
    |p| >= 1 && p[0] == from && p[|p| - 1] == to &&
    forall i :: 0 <= i < |p| - 1 ==> Adjacent(edges, p[i], p[i + 1])
  }

  /** What `nx.shortest_path(graph, from, to)` returns or raises. */
  datatype PathAnswer = NodeMissing | Unreachable | Path(nodes: seq<string>)

  /** The answers the shortest-path search may give: NodeNotFound when
      either end is not in the graph, NetworkXNoPath when no walk joins
      them, otherwise a walk no longer than any other. */
  ghost predicate ShortestPathAnswer(edges: Edges, from: string, to: string, ans: PathAnswer)
  {
    match ans
    case NodeMissing => from !in Nodes(edges) || to !in Nodes(edges)
    case Unreachable => from in Nodes(edges) && to in Nodes(edges) && forall p :: !IsWalk(edges, p, from, to)
    case Path(p) => from in Nodes(edges) && to in Nodes(edges) && IsWalk(edges, p, from, to) &&
                    forall q :: IsWalk(edges, q, from, to) ==> |p| <= |q|
  }

  /** The next hop a shortest path names is a neighbour of the source, and
      the path has length 1 only when source and destination coincide. */
  lemma NextHopIsNeighbour(edges: Edges, from: string, to: string, p: seq<string>)
    requires ShortestPathAnswer(edges, from, to, Path(p))
    ensures |p| > 1 ==> Adjacent(edges, from, p[1])
    ensures |p| <= 1 <==> from == to
  {
    if from == to {
      assert IsWalk(edges, [from], from, to);
    }
  }

  /** A shared route table (`RouteTable`). */
  class RouteTable {
    var edges: Edges

    constructor ()
      ensures edges == {}
    {
      edges := {};
    }

    /** `add_edge`. */
    method AddEdge(a: string, b: string)
      modifies this
      ensures edges == old(edges) + {(a, b)}
      ensures Adjacent(edges, a, b)
    {
      edges := edges + {(a, b)};
    }
  }

  // ---------------------------------------------------------------------
  // Packets and connections

  datatype PacketKind = DataPacket | OtherPacket

  /** A classical packet: its type, destination, the hops it went through
      and the hop it is addressed to next. */
  datatype Packet = Packet(kind: PacketKind, toAddress: string, hops: seq<string>, nextHop: Option<string>)

  /** A classical connection between two named nodes. */
  datatype Link = Link(id: nat, node1: string, node2: string)

  predicate Joins(l: Link, a: string, b: string)
  {
    (l.node1 == a && l.node2 == b) || (l.node1 == b && l.node2 == a)
  }

  /** `get_connection(self, node)`: the first connection joining the two. */
  function LinkTo(links: seq<Link>, me: string, n: string): (r: Option<Link>)
    ensures r.Some? ==> r.value in links && Joins(r.value, me, n)
    ensures r.None? <==> forall k :: 0 <= k < |links| ==> !Joins(links[k], me, n)
  {
    if links == [] then None
    else if Joins(links[0], me, n) then Some(links[0])
    else
      var r := LinkTo(links[1..], me, n);
      assert forall k :: 1 <= k < |links| ==> links[k] == links[1..][k - 1];
      r
  }

  datatype RoutingError =
    | NodeNotFound               // the shortest-path search raised NodeNotFound
    | NoPath                     // the shortest-path search raised NetworkXNoPath
    | NotConnected(node: string) // NotConnectedError(self, node)

  /** What handling one packet addressed to this exchange comes to. */
  datatype Handling = Transmit(link: Link, packet: Packet) | Absorbed(packet: Packet) | Failed(error: RoutingError)

  /** `route_packet`: record this exchange as a hop, take the second node
      of the shortest path to the destination as the next hop (a path of
      one node means there is nowhere to go), and put the packet on the
      connection to that hop. */
  function RoutePacket(me: string, links: seq<Link>, ans: PathAnswer, p: Packet): (r: Handling)
    ensures r.Transmit? ==>
      (ans.Path? && |ans.nodes| > 1 &&
       r.packet == p.(hops := p.hops + [me], nextHop := Some(ans.nodes[1])) &&
       r.link in links && Joins(r.link, me, ans.nodes[1]))
    ensures ans.Path? && |ans.nodes| <= 1 ==> r == Failed(NotConnected(p.toAddress))
    ensures ans.Path? && |ans.nodes| > 1 && LinkTo(links, me, ans.nodes[1]).None? ==> r == Failed(NotConnected(ans.nodes[1]))
    ensures ans.Path? && |ans.nodes| > 1 && LinkTo(links, me, ans.nodes[1]).Some? ==>
      r == Transmit(LinkTo(links, me, ans.nodes[1]).value, p.(hops := p.hops + [me], nextHop := Some(ans.nodes[1])))
    ensures ans.NodeMissing? ==> r == Failed(NodeNotFound)
    ensures ans.Unreachable? ==> r == Failed(NoPath)
    ensures !r.Absorbed?
  {
    match ans
    case NodeMissing => Failed(NodeNotFound)
    case Unreachable => Failed(NoPath)
    case Path(path) =>
      if |path| <= 1 then Failed(NotConnected(p.toAddress))
      else
        match LinkTo(links, me, path[1])
        case None => Failed(NotConnected(path[1]))
        case Some(l) => Transmit(l, p.(hops := p.hops + [me], nextHop := Some(path[1])))
  }

  /** `recive_packet`: record this exchange as a hop; only data packets are
      routed on, so a routed packet leaves with this exchange twice more
      in its hop list. */
  function ReceivePacket(me: string, links: seq<Link>, ans: PathAnswer, p: Packet): (r: Handling)
    ensures p.kind != DataPacket ==> r == Absorbed(p.(hops := p.hops + [me]))
    ensures r.Transmit? ==>
      (p.kind == DataPacket && r.packet.hops == p.hops + [me, me] &&
       r.packet.kind == p.kind && r.packet.toAddress == p.toAddress &&
       ans.Path? && |ans.nodes| > 1 && r.packet.nextHop == Some(ans.nodes[1]) && Joins(r.link, me, ans.nodes[1]))
    ensures p.kind == DataPacket && ans.Path? && |ans.nodes| > 1 && LinkTo(links, me, ans.nodes[1]).Some? ==>
      r == Transmit(LinkTo(links, me, ans.nodes[1]).value, p.(hops := p.hops + [me, me], nextHop := Some(ans.nodes[1])))
    ensures p.kind == DataPacket && ans.NodeMissing? ==> r == Failed(NodeNotFound)
    ensures p.kind == DataPacket && ans.Unreachable? ==> r == Failed(NoPath)
  {
    var received := p.(hops := p.hops + [me]);
    if p.kind == DataPacket then RoutePacket(me, links, ans, received) else Absorbed(received)
  }

  // ---------------------------------------------------------------------
  // Draining the buffers

  /** All queued packets, buffer after buffer. */
  function Flatten(bs: seq<seq<Packet>>): seq<Packet>
  {
    if bs == [] then [] else bs[0] + Flatten(bs[1..])
  }

  lemma {:induction false} FlattenSplit(bs: seq<seq<Packet>>, i: nat)
    requires i < |bs|
    ensures Flatten(bs) == Flatten(bs[..i]) + bs[i] + Flatten(bs[i + 1..])
  {
    if i > 0 {
      FlattenSplit(bs[1..], i - 1);
      assert bs[1..][..i - 1] == bs[..i][1..];
      assert bs[1..][i - 1] == bs[i];
      assert bs[1..][i..] == bs[i + 1..];
    } else {
      assert bs[..0] == [];
    }
  }

  lemma {:induction false} FlattenEmpties(bs: seq<seq<Packet>>)
    requires forall k :: 0 <= k < |bs| ==> bs[k] == []
    ensures Flatten(bs) == []
  {
    if bs != [] {
      FlattenEmpties(bs[1..]);
    }
  }

  /** What `forward` did with the packets it took off the buffers: what it
      transmitted, which unexpected packets it logged, the exception that
      ended it early, and how many packets it took. */
  datatype Log = Log(sent: seq<(Link, Packet)>, unexpected: seq<Packet>, error: Option<RoutingError>, consumed: nat)

  /** Taking the packets `ps` off the buffers in order, after `log`: a
      packet addressed to another node is only logged; the first exception
      ends the whole drain, since `forward` does not catch it. `answers`
      gives the shortest path from this exchange to each destination. */
  function Run(me: string, links: seq<Link>, answers: string -> PathAnswer, log: Log, ps: seq<Packet>): (r: Log)
    ensures log.error.Some? ==> r == log
    ensures log.consumed <= r.consumed <= log.consumed + |ps|
    ensures r.error.None? ==> r.consumed == log.consumed + |ps|
    decreases |ps|
  {
    if ps == [] then log else Run(me, links, answers, Step(me, links, answers, log, ps[0]), ps[1..])
  }

  /** Taking one more packet `p` off the buffers, after `prev`. */
  function Step(me: string, links: seq<Link>, answers: string -> PathAnswer, prev: Log, p: Packet): (r: Log)
    ensures prev.error.Some? ==> r == prev
    ensures prev.error.None? ==> r.consumed == prev.consumed + 1
  {
    if prev.error.Some? then prev
    else if p.nextHop != Some(me) then prev.(unexpected := prev.unexpected + [p], consumed := prev.consumed + 1)
    else
      match ReceivePacket(me, links, answers(p.toAddress), p)
      case Transmit(l, q) => prev.(sent := prev.sent + [(l, q)], consumed := prev.consumed + 1)
      case Absorbed(_) => prev.(consumed := prev.consumed + 1)
      case Failed(e) => prev.(error := Some(e), consumed := prev.consumed + 1)
  }

  /** What `forward` does with the packets `ps`, from a fresh log. */
  function Process(me: string, links: seq<Link>, answers: string -> PathAnswer, ps: seq<Packet>): (r: Log)
    ensures r.consumed <= |ps|
    ensures r.error.None? ==> r.consumed == |ps|
  {
    Run(me, links, answers, Log([], [], None, 0), ps)
  }

  /** Draining two runs of packets one after the other is draining their
      concatenation. */
  lemma {:induction false} RunAppend(me: string, links: seq<Link>, answers: string -> PathAnswer, log: Log, xs: seq<Packet>, ys: seq<Packet>)
    ensures Run(me, links, answers, log, xs + ys) == Run(me, links, answers, Run(me, links, answers, log, xs), ys)
    decreases |xs|
  {
    if xs != [] {
      assert (xs + ys)[0] == xs[0];
      assert (xs + ys)[1..] == xs[1..] + ys;
      RunAppend(me, links, answers, Step(me, links, answers, log, xs[0]), xs[1..], ys);
    } else {
      assert xs + ys == ys;
    }
  }

  /** A transmitted packet that was routed here: a data packet whose last
      two hops are this exchange, put on a connection to its next hop, a
      neighbour of this exchange in the route table. */
  predicate LeavesRouted(edges: Edges, me: string, item: (Link, Packet))
  {
    var p := item.1;
    p.kind == DataPacket && |p.hops| >= 2 && p.hops[|p.hops| - 2] == me && p.hops[|p.hops| - 1] == me &&
    p.nextHop.Some? && Joins(item.0, me, p.nextHop.value) && Adjacent(edges, me, p.nextHop.value)
  }

  lemma {:induction false} RunTransmitsRouted(edges: Edges, me: string, links: seq<Link>, answers: string -> PathAnswer, log: Log, ps: seq<Packet>)
    requires forall d :: ShortestPathAnswer(edges, me, d, answers(d))
    requires forall j :: 0 <= j < |log.sent| ==> LeavesRouted(edges, me, log.sent[j])
    ensures forall j :: 0 <= j < |Run(me, links, answers, log, ps).sent| ==> LeavesRouted(edges, me, Run(me, links, answers, log, ps).sent[j])
    decreases |ps|
  {
    if ps != [] {
      var p := ps[0];
      var ans := answers(p.toAddress);
      var h := ReceivePacket(me, links, ans, p);
      if log.error.None? && p.nextHop == Some(me) && h.Transmit? {
        assert ShortestPathAnswer(edges, me, p.toAddress, ans);
        NextHopIsNeighbour(edges, me, p.toAddress, ans.nodes);
      }
      RunTransmitsRouted(edges, me, links, answers, Step(me, links, answers, log, p), ps[1..]);
    }
  }

  /** Every packet `forward` transmits leaves routed. */
  lemma ProcessTransmitsRouted(edges: Edges, me: string, links: seq<Link>, answers: string -> PathAnswer, ps: seq<Packet>)
    requires forall d :: ShortestPathAnswer(edges, me, d, answers(d))
    ensures forall j :: 0 <= j < |Process(me, links, answers, ps).sent| ==> LeavesRouted(edges, me, Process(me, links, answers, ps).sent[j])
  {
    RunTransmitsRouted(edges, me, links, answers, Log([], [], None, 0), ps);
  }

  /** The edges that a sequence of `add_connection` calls at exchange `me`
      adds to the table: those of connections not touching `me`. */
  function EdgesAdded(me: string, links: seq<Link>): (r: Edges)
    ensures forall e :: e in r ==> e.0 != me && e.1 != me
  {
    if links == [] then {}
    else
      var l := links[|links| - 1];
      EdgesAdded(me, links[..|links| - 1]) + (if l.node1 == me || l.node2 == me then {} else {(l.node1, l.node2)})
  }

  /** An exchange never becomes a node of the route table through its own
      connections, so on such a table every lookup from it finds no node
      and every data packet it routes raises. */
  lemma LoneExchangeCannotRoute(me: string, links: seq<Link>, ownLinks: seq<Link>, to: string, ans: PathAnswer, p: Packet)
    requires ShortestPathAnswer(EdgesAdded(me, links), me, to, ans)
    requires p.kind == DataPacket
    ensures me !in Nodes(EdgesAdded(me, links))
    ensures ans == NodeMissing
    ensures ReceivePacket(me, ownLinks, ans, p) == Failed(NodeNotFound)
  {
    var edges := EdgesAdded(me, links);
    assert me !in (set e | e in edges :: e.0);
    assert me !in (set e | e in edges :: e.1);
  }

  // ---------------------------------------------------------------------
  // The exchange

  /** An internet exchange. Every exchange refers to the one route table
      that is an attribute of the class. Packets put on a connection and
      unexpected packets logged are recorded. */
  class InternetExchange {
    const name: string
    const table: RouteTable
    var links: seq<Link>
    var buffers: seq<seq<Packet>>  // the receive queues, one per connected node
    var transmitted: seq<(Link, Packet)>
    var unexpected: seq<Packet>

    constructor (name: string, table: RouteTable)
      ensures this.name == name && this.table == table
      ensures links == [] && buffers == [] && transmitted == [] && unexpected == []
    {
      this.name := name;
      this.table := table;
      links := [];
      buffers := [];
      transmitted := [];
      unexpected := [];
    }

    /** `add_connection`: keep the connection, and add it to the shared
        route table unless one of its ends is this exchange. */
    method AddConnection(l: Link)
      modifies this, table
      ensures links == old(links) + [l]
      ensures table.edges == old(table.edges) + (if l.node1 == name || l.node2 == name then {} else {(l.node1, l.node2)})
      ensures buffers == old(buffers) && transmitted == old(transmitted) && unexpected == old(unexpected)
    {
      links := links + [l];
      if l.node1 == name || l.node2 == name {
        return;
      }
      table.AddEdge(l.node1, l.node2);
    }

    /** `forward`: take every packet off every buffer, in order; a packet
        addressed to this exchange is received, any other is logged. An
        exception from routing ends the drain, leaving the packets not yet
        taken where they were. `answers` gives the shortest-path search's
        answer for each destination; when those answers are right, what is
        transmitted leaves routed (`ProcessTransmitsRouted`). */
    method Forward(answers: string -> PathAnswer) returns (error: Option<RoutingError>)
      modifies this
      ensures var log := Process(name, links, answers, Flatten(old(buffers)));
        error == log.error &&
        transmitted == old(transmitted) + log.sent &&
        unexpected == old(unexpected) + log.unexpected &&
        Flatten(buffers) == Flatten(old(buffers))[log.consumed..]
      ensures |buffers| == |old(buffers)|
      ensures error.None? ==> forall k :: 0 <= k < |buffers| ==> buffers[k] == []
      ensures links == old(links)
    {
      ghost var bs := buffers;
      ghost var log := Log([], [], None, 0);
      var bi := 0;
      while bi < |buffers|
        invariant 0 <= bi <= |buffers| == |bs|
        invariant forall k :: 0 <= k < bi ==> buffers[k] == []
        invariant buffers[bi..] == bs[bi..]
        invariant links == old(links)
        invariant log.error.None? && log.consumed == |Flatten(bs[..bi])|
        invariant transmitted == old(transmitted) + log.sent && unexpected == old(unexpected) + log.unexpected
        invariant Run(name, links, answers, log, Flatten(bs[bi..])) == Process(name, links, answers, Flatten(bs))
      {
        ghost var after;
        ghost var before := buffers;
        error, after := DrainBuffer(bi, answers, log, old(transmitted), old(unexpected));
        BufferDrained(name, links, answers, bs, bi, log, after);
        BufferTaken(bs, before, buffers, bi, after.consumed - log.consumed);
        if error.Some? {
          assert Flatten(buffers) == Flatten(bs)[after.consumed..];
          return;
        }
        log := after;
        bi := bi + 1;
      }
      AllDrained(bs, buffers);
      return None;
    }

    /** One packet taken off a buffer in `forward`: a packet addressed to
        another node is logged, any other is received. */
    method HandlePacket(p: Packet, answers: string -> PathAnswer, ghost prev: Log,
                        ghost sent0: seq<(Link, Packet)>, ghost unexpected0: seq<Packet>)
        returns (error: Option<RoutingError>)
      requires prev.error.None? && transmitted == sent0 + prev.sent && unexpected == unexpected0 + prev.unexpected
      modifies this`transmitted, this`unexpected
      ensures var next := Step(name, links, answers, prev, p);
        error == next.error && transmitted == sent0 + next.sent && unexpected == unexpected0 + next.unexpected
    {
      if p.nextHop != Some(name) {
        unexpected := unexpected + [p];
        return None;
      }
      var h := ReceivePacket(name, links, answers(p.toAddress), p);
      match h
      case Transmit(l, out) =>
        transmitted := transmitted + [(l, out)];
        return None;
      case Absorbed(_) =>
        return None;
      case Failed(e) =>
        return Some(e);
    }

    /** One buffer's turn in `forward`: take its packets off in order, up
        to the first exception. */
    method DrainBuffer(bi: nat, answers: string -> PathAnswer, ghost prev: Log,
                       ghost sent0: seq<(Link, Packet)>, ghost unexpected0: seq<Packet>)
        returns (error: Option<RoutingError>, ghost after: Log)
      requires bi < |buffers|
      requires prev.error.None? && transmitted == sent0 + prev.sent && unexpected == unexpected0 + prev.unexpected
      modifies this`buffers, this`transmitted, this`unexpected
      ensures after == Run(name, links, answers, prev, old(buffers)[bi])
      ensures error == after.error && transmitted == sent0 + after.sent && unexpected == unexpected0 + after.unexpected
      ensures buffers == old(buffers)[bi := old(buffers)[bi][after.consumed - prev.consumed..]]
    {
      ghost var q0 := buffers[bi];
      ghost var taken := 0;
      var rest := buffers[bi];
      after := prev;
      while rest != []
        invariant taken <= |q0| && rest == q0[taken..]
        invariant buffers == old(buffers)[bi := rest]
        invariant after.error.None? && after.consumed == prev.consumed + taken
        invariant transmitted == sent0 + after.sent && unexpected == unexpected0 + after.unexpected
        invariant Run(name, links, answers, after, rest) == Run(name, links, answers, prev, q0)
        decreases |rest|
      {
        var p := rest[0];
        rest := rest[1..];
        buffers := buffers[bi := rest];
        var e := HandlePacket(p, answers, after, sent0, unexpected0);
        after := Step(name, links, answers, after, p);
        taken := taken + 1;
        if e.Some? {
          return e, after;
        }
      }
      return None, after;
    }
  }

  /** Draining buffer `bi` after the earlier ones leaves the later buffers
      to finish the drain. */
  lemma BufferDrained(me: string, links: seq<Link>, answers: string -> PathAnswer, bs: seq<seq<Packet>>, bi: nat, log: Log, after: Log)
    requires bi < |bs| && log.consumed == |Flatten(bs[..bi])|
    requires after == Run(me, links, answers, log, bs[bi])
    ensures Run(me, links, answers, log, Flatten(bs[bi..])) == Run(me, links, answers, after, Flatten(bs[bi + 1..]))
    ensures after.error.None? ==> after.consumed == |Flatten(bs[..bi + 1])|
    ensures after.error.Some? ==> Run(me, links, answers, log, Flatten(bs[bi..])) == after
  {
    assert bs[bi..][0] == bs[bi] && bs[bi..][1..] == bs[bi + 1..];
    RunAppend(me, links, answers, log, bs[bi], Flatten(bs[bi + 1..]));
    FlattenAppend(bs[..bi], bs[bi]);
    assert bs[..bi + 1] == bs[..bi] + [bs[bi]];
  }

  lemma {:induction false} FlattenAppend(bs: seq<seq<Packet>>, b: seq<Packet>)
    ensures Flatten(bs + [b]) == Flatten(bs) + b
  {
    if bs != [] {
      assert (bs + [b])[1..] == bs[1..] + [b];
      FlattenAppend(bs[1..], b);
    }
  }

  /** Taking `taken` packets off buffer `bi` once the earlier buffers are
      empty: the later buffers are untouched, and what is still queued is
      everything past the packets taken so far. */
  lemma BufferTaken(bs: seq<seq<Packet>>, before: seq<seq<Packet>>, now: seq<seq<Packet>>, bi: nat, taken: nat)
    requires bi < |bs| == |before|
    requires forall k :: 0 <= k < bi ==> before[k] == []
    requires before[bi..] == bs[bi..]
    requires taken <= |before[bi]| && now == before[bi := before[bi][taken..]]
    ensures |now| == |bs| && now[bi + 1..] == bs[bi + 1..]
    ensures taken == |bs[bi]| ==> forall k :: 0 <= k < bi + 1 ==> now[k] == []
    ensures |Flatten(bs[..bi])| + taken <= |Flatten(bs)|
    ensures Flatten(now) == Flatten(bs)[|Flatten(bs[..bi])| + taken..]
  {
    assert before[bi] == bs[bi..][0];
    assert forall k :: bi < k < |bs| ==> now[k] == before[k] == before[bi..][k - bi] == bs[k];
    assert now[bi + 1..] == bs[bi + 1..];
    Remaining(bs, now, bi, taken);
  }

  /** Once every buffer is empty, what remains is nothing past the end. */
  lemma AllDrained(bs: seq<seq<Packet>>, now: seq<seq<Packet>>)
    requires |now| == |bs| && forall k :: 0 <= k < |now| ==> now[k] == []
    ensures Flatten(now) == Flatten(bs)[|Flatten(bs)|..]
  {
    FlattenEmpties(now);
  }

  /** After an exception in buffer `bi`, the packets still queued are
      exactly those not yet taken. */
  lemma Remaining(bs: seq<seq<Packet>>, now: seq<seq<Packet>>, bi: nat, taken: nat)
    requires bi < |bs| == |now| && taken <= |bs[bi]|
    requires forall k :: 0 <= k < bi ==> now[k] == []
    requires now[bi] == bs[bi][taken..] && now[bi + 1..] == bs[bi + 1..]
    ensures |Flatten(bs[..bi])| + taken <= |Flatten(bs)|
    ensures Flatten(now) == Flatten(bs)[|Flatten(bs[..bi])| + taken..]
  {
    var a, b, c := Flatten(bs[..bi]), bs[bi], Flatten(bs[bi + 1..]);
    FlattenSplit(bs, bi);
    FlattenSplit(now, bi);
    FlattenEmpties(now[..bi]);
    assert Flatten(now) == b[taken..] + c;
    assert (a + b + c)[|a| + taken..] == b[taken..] + c;
  }

  /** The class object of `InternetExchange`: the route table every
      exchange shares and the instance `get_instance` hands out. */
  class ExchangeClass {
    const routeTable: RouteTable
    var instance: Option<InternetExchange>

    ghost predicate Valid()
      reads this
    {
      instance.Some? ==> instance.value.table == routeTable
    }

    constructor ()
      ensures Valid() && instance == None
    {
      routeTable := new RouteTable();
      instance := None;
    }

    /** `get_instance`: the first call creates the exchange; every call
        returns that same exchange. */
    method GetInstance() returns (e: InternetExchange)
      requires Valid()
      modifies this
      ensures Valid()
      ensures instance == Some(e) && e.table == routeTable
      ensures old(instance).Some? ==> e == old(instance).value
      ensures old(instance).None? ==> fresh(e) && e.name == "Internet Exchange"
    {
      if instance.None? {
        var created := new InternetExchange("Internet Exchange", routeTable);
        instance := Some(created);
      }
      e := instance.value;
    }
  }
}
