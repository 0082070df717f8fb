/** The graph checks and count-based scores the topology agent's evaluation
    applies to a simplified topology: breadth-first path finding, node
    filters, the three logical assertions, and the requirement and metadata
    scores. The adjacency lists are those of the validator: the scoring
    helper `_build_adjacency` computes the same dictionary. */
module Scoring {
  import opened Common
  import opened Topology
  import opened Validator

  // ---------------------------------------------------------------------
  // Shortest walks

  ghost predicate WalkTo(lists: map<string, seq<string>>, start: string, p: seq<string>, x: string)
  {
    IsWalk(lists, p) && p[0] == start && p[|p| - 1] == x
  }

  /** Every walk from `start` to `x` has at least `n` names. */
  ghost predicate NoWalkShorter(lists: map<string, seq<string>>, start: string, x: string, n: nat)
  {
    forall q :: WalkTo(lists, start, q, x) ==> |q| >= n
  }

  /** `p` is a walk from `start` to `end` with the fewest hops. */
  ghost predicate IsShortestWalk(lists: map<string, seq<string>>, p: seq<string>, start: string, end: string)
  {
    WalkTo(lists, start, p, end) && NoWalkShorter(lists, start, end, |p|)
  }

  lemma WalkPrefix(lists: map<string, seq<string>>, w: seq<string>, j: nat)
    requires IsWalk(lists, w) && 1 <= j <= |w|
    ensures IsWalk(lists, w[..j])
  {
  }

  /** A walk that starts inside a set and ends outside it crosses its
      border somewhere. */
  lemma {:induction false} Crossing(w: seq<string>, s: set<string>) returns (j: nat)
    requires |w| >= 1 && w[0] in s && w[|w| - 1] !in s
    ensures 1 <= j < |w| && w[j - 1] in s && w[j] !in s
  {
    if w[|w| - 2] in s {
      j := |w| - 1;
    } else {
      j := Crossing(w[..|w| - 1], s);
    }
  }

  /** The breadth-first frontier argument: when every visited name is
      either processed, with all its neighbours visited, or at least `n`
      names away from the start, a walk leaving the visited set has more
      than `n` names. */
  lemma EscapeVisited(lists: map<string, seq<string>>, start: string, processed: set<string>, visited: set<string>,
                      w: seq<string>, n: nat)
    requires IsWalk(lists, w) && w[0] == start && start in visited && w[|w| - 1] !in visited
    requires forall x :: x in processed ==> forall y :: y in AdjOf(lists, x) ==> y in visited
    requires forall x :: x in visited && x !in processed ==> NoWalkShorter(lists, start, x, n)
    ensures |w| >= n + 1
  {
    var j := Crossing(w, visited);
    assert w[j] in AdjOf(lists, w[j - 1]);
    WalkPrefix(lists, w, j);
    assert WalkTo(lists, start, w[..j], w[j - 1]);
  }

  /** The names a breadth-first queue holds. */
  function QueueNodes(queue: seq<(string, seq<string>)>): set<string>
  {
    set k | 0 <= k < |queue| :: queue[k].0
  }

  /** What the queue of `_bfs_path` keeps: each entry is a shortest walk
      from the start to its visited name, with lengths in order and within
      one of `level`. */
  ghost predicate QueueOk(lists: map<string, seq<string>>, start: string, queue: seq<(string, seq<string>)>,
                          visited: set<string>, level: nat)
  {
    (forall k :: 0 <= k < |queue| ==>
       WalkTo(lists, start, queue[k].1, queue[k].0) && queue[k].0 in visited &&
       NoWalkShorter(lists, start, queue[k].0, |queue[k].1|) && level <= |queue[k].1| <= level + 1) &&
    (forall k, l :: 0 <= k < l < |queue| ==> |queue[k].1| <= |queue[l].1|)
  }

  /** Every name some adjacency list mentions. */
  function Targets(lists: map<string, seq<string>>): set<string>
  {
    set u, v | u in lists && v in lists[u] :: v
  }

  lemma StrictShrink(k: set<string>, v: set<string>, v2: set<string>)
    requires v <= v2 <= k && v != v2
    ensures |k - v2| < |k - v|
  {
    assert v2 - v != {};
    var r :| r in v2 - v;
    VisitingShrinks(k, v, r);
    UnvisitedShrinks(k, v + {r}, v2);
  }

  /** Taking the front entry off the queue. */
  lemma PopKeeps(lists: map<string, seq<string>>, start: string, queue: seq<(string, seq<string>)>,
                 visited: set<string>, level: nat)
    requires QueueOk(lists, start, queue, visited, level) && queue != []
    ensures QueueOk(lists, start, queue[1..], visited, |queue[0].1|)
    ensures WalkTo(lists, start, queue[0].1, queue[0].0) && NoWalkShorter(lists, start, queue[0].0, |queue[0].1|)
    ensures QueueNodes(queue) == QueueNodes(queue[1..]) + {queue[0].0}
  {
    assert forall k :: 0 <= k < |queue| - 1 ==> queue[1..][k] == queue[k + 1];
    forall x | x in QueueNodes(queue)
      ensures x in QueueNodes(queue[1..]) + {queue[0].0}
    {
      var k :| 0 <= k < |queue| && queue[k].0 == x;
      if k > 0 {
        assert queue[1..][k - 1].0 == x;
      }
    }
  }

  /** Queueing a newly visited name with its shortest walk. */
  lemma PushKeeps(lists: map<string, seq<string>>, start: string, queue: seq<(string, seq<string>)>,
                  visited: set<string>, level: nat, y: string, p: seq<string>)
    requires QueueOk(lists, start, queue, visited, level)
    requires WalkTo(lists, start, p, y) && NoWalkShorter(lists, start, y, |p|) && |p| == level + 1
    ensures QueueOk(lists, start, queue + [(y, p)], visited + {y}, level)
    ensures QueueNodes(queue + [(y, p)]) == QueueNodes(queue) + {y}
  {
    var q := queue + [(y, p)];
    assert forall k :: 0 <= k < |queue| ==> q[k] == queue[k];
    assert q[|queue|] == (y, p);
    forall x | x in QueueNodes(q)
      ensures x in QueueNodes(queue) + {y}
    {
      var k :| 0 <= k < |q| && q[k].0 == x;
    }
  }

  /** The frontier during the expansion of `current`: every visited name
      that is not processed is `current` or queued, and so at least
      `|path|` names away. */
  lemma Frontier(lists: map<string, seq<string>>, start: string, queue: seq<(string, seq<string>)>,
                 visited: set<string>, processed: set<string>, current: string, path: seq<string>)
    requires QueueOk(lists, start, queue, visited, |path|)
    requires visited <= processed + QueueNodes(queue) + {current}
    requires NoWalkShorter(lists, start, current, |path|)
    ensures forall x :: x in visited && x !in processed ==> NoWalkShorter(lists, start, x, |path|)
  {
    forall x | x in visited && x !in processed
      ensures NoWalkShorter(lists, start, x, |path|)
    {
      if x != current {
        var k :| 0 <= k < |queue| && queue[k].0 == x;
      }
    }
  }

  /** Every neighbour of a processed name is visited. */
  ghost predicate Expanded(lists: map<string, seq<string>>, processed: set<string>, visited: set<string>)
  {
    forall x :: x in processed ==> forall y :: y in AdjOf(lists, x) ==> y in visited
  }

  /** The state `_bfs_path` keeps between two dequeues: the start is
      visited and the end is not; every visited name is processed or
      queued; the queue holds shortest walks. */
  ghost predicate BfsState(lists: map<string, seq<string>>, start: string, end: string, queue: seq<(string, seq<string>)>,
                           visited: set<string>, processed: set<string>, level: nat, universe: set<string>)
  {
    visited <= universe && start in visited && end !in visited && processed <= visited &&
    visited <= processed + QueueNodes(queue) && Expanded(lists, processed, visited) &&
    QueueOk(lists, start, queue, visited, level)
  }

  /** Expanding the front entry of the queue: the end next to it, or a
      strictly smaller unvisited part of the graph, or a shorter queue
      with nothing newly visited. */
  lemma ExpandShrinks(lists: map<string, seq<string>>, current: string, visited: set<string>)
    ensures |Targets(lists) - (visited + Elems(AdjOf(lists, current)))| < |Targets(lists) - visited| ||
            (visited + Elems(AdjOf(lists, current)) == visited && Fresh(AdjOf(lists, current), visited) == [])
  {
    var nbrs := AdjOf(lists, current);
    TargetsHoldNeighbours(lists, current);
    if visited + Elems(nbrs) != visited {
      var r :| r in Elems(nbrs) && r !in visited;
      VisitingShrinks(Targets(lists), visited, r);
      UnvisitedShrinks(Targets(lists), visited + {r}, visited + Elems(nbrs));
    } else {
      FreshOfVisited(nbrs, visited);
    }
  }

  /** The search `_bfs_path` runs once the start is queued: the front entry
      is taken off; if the end is among its neighbours the walk to it is
      extended by the end, otherwise its unvisited neighbours are visited
      and queued in adjacency order and the search goes on. */
  function BfsRun(lists: map<string, seq<string>>, end: string, queue: seq<(string, seq<string>)>, visited: set<string>): Option<seq<string>>
    decreases |Targets(lists) - visited|, |queue|
  {
    if queue == [] then None
    else
      var nbrs := AdjOf(lists, queue[0].0);
      if end in nbrs then Some(queue[0].1 + [end])
      else
        ExpandShrinks(lists, queue[0].0, visited);
        BfsRun(lists, end, queue[1..] + Pushes(queue[0].1, Fresh(nbrs, visited)), visited + Elems(nbrs))
  }

  /** What `_bfs_path(adj, start, end)` returns: the walk of the start alone
      when the two coincide, otherwise the first walk the search finds. */
  function BfsFrom(lists: map<string, seq<string>>, start: string, end: string): Option<seq<string>>
  {
    if start == end then Some([start]) else BfsRun(lists, end, [(start, [start])], {start})
  }

  /** From any state the search keeps, the walk it finds is a shortest walk
      to the end, and it finds none only when the end is unreachable. */
  lemma {:induction false} BfsRunMeaning(lists: map<string, seq<string>>, start: string, end: string,
                                         queue: seq<(string, seq<string>)>, visited: set<string>,
                                         processed: set<string>, level: nat)
    requires BfsState(lists, start, end, queue, visited, processed, level, {start} + Targets(lists))
    ensures BfsRun(lists, end, queue, visited).Some? ==> IsShortestWalk(lists, BfsRun(lists, end, queue, visited).value, start, end)
    ensures BfsRun(lists, end, queue, visited).None? ==> !Reaches(lists, start, end)
    decreases |Targets(lists) - visited|, |queue|
  {
    var universe := {start} + Targets(lists);
    if queue == [] {
      BfsExhausted(lists, start, end, visited, processed, level, universe);
    } else if end in AdjOf(lists, queue[0].0) {
      StepFound(lists, start, end, queue, visited, processed, level, universe);
    } else {
      var nbrs := AdjOf(lists, queue[0].0);
      StepKeeps(lists, start, end, queue, visited, processed, level, universe);
      ExpandShrinks(lists, queue[0].0, visited);
      BfsRunMeaning(lists, start, end, queue[1..] + Pushes(queue[0].1, Fresh(nbrs, visited)), visited + Elems(nbrs),
                    processed + {queue[0].0}, |queue[0].1|);
    }
  }

  /** The path `_bfs_path` returns is a shortest walk from the start to the
      end, and it returns `None` exactly when the end cannot be reached. */
  lemma BfsFromMeaning(lists: map<string, seq<string>>, start: string, end: string)
    ensures BfsFrom(lists, start, end).Some? ==> IsShortestWalk(lists, BfsFrom(lists, start, end).value, start, end)
    ensures BfsFrom(lists, start, end).None? <==> !Reaches(lists, start, end)
  {
    if start == end {
      assert WalkTo(lists, start, [start], end);
    } else {
      BfsInit(lists, start, end);
      BfsRunMeaning(lists, start, end, [(start, [start])], {start}, {}, 1);
    }
    var r := BfsFrom(lists, start, end);
    if r.Some? {
      assert IsWalk(lists, r.value) && r.value[0] == start && r.value[|r.value| - 1] == end;
    }
  }

  /** `_bfs_path`: the walk `BfsFrom` describes. */
  method BfsPath(lists: map<string, seq<string>>, start: string, end: string) returns (r: Option<seq<string>>)
    ensures r == BfsFrom(lists, start, end)
    ensures r.Some? ==> IsShortestWalk(lists, r.value, start, end)
    ensures r.None? <==> !Reaches(lists, start, end)
  {
    BfsFromMeaning(lists, start, end);
    if start == end {
      return Some([start]);
    }
    var visited := {start};
    var queue := [(start, [start])];
    while queue != []
      invariant BfsRun(lists, end, queue, visited) == BfsFrom(lists, start, end)
      decreases |Targets(lists) - visited|, |queue|
    {
      var current := queue[0].0;
      var path := queue[0].1;
      ghost var queue0, visited0 := queue, visited;
      var found;
      found, queue, visited := ExpandNode(lists, end, current, path, queue[1..], visited);
      if found.Some? {
        return found;
      }
      ExpandShrinks(lists, current, visited0);
    }
    return None;
  }

  /** The search starts with the start visited and queued with the walk
      made of itself. */
  lemma BfsInit(lists: map<string, seq<string>>, start: string, end: string)
    requires start != end
    ensures BfsState(lists, start, end, [(start, [start])], {start}, {}, 1, {start} + Targets(lists))
  {
    var queue := [(start, [start])];
    assert WalkTo(lists, start, [start], start);
    assert queue[0].0 == start;
  }

  /** An emptied queue leaves every reachable name visited, and the end is
      not visited. */
  lemma BfsExhausted(lists: map<string, seq<string>>, start: string, end: string, visited: set<string>,
                     processed: set<string>, level: nat, universe: set<string>)
    requires BfsState(lists, start, end, [], visited, processed, level, universe)
    ensures !Reaches(lists, start, end)
  {
    assert Closed(lists, visited);
    if Reaches(lists, start, end) {
      ClosedHoldsReachable(lists, visited, start, end);
    }
  }

  /** The end next to the front name of the queue is reached by a shortest
      walk through it. */
  lemma StepFound(lists: map<string, seq<string>>, start: string, end: string, queue: seq<(string, seq<string>)>,
                  visited: set<string>, processed: set<string>, level: nat, universe: set<string>)
    requires BfsState(lists, start, end, queue, visited, processed, level, universe) && queue != []
    requires end in AdjOf(lists, queue[0].0)
    ensures IsShortestWalk(lists, queue[0].1 + [end], start, end)
  {
    PopKeeps(lists, start, queue, visited, level);
    ShortestThrough(lists, start, queue[1..], visited, processed, queue[0].0, queue[0].1, end);
  }

  /** Dequeuing the front name and expanding it keeps the state of the
      search, and either visits a new name or shortens the queue. */
  lemma StepKeeps(lists: map<string, seq<string>>, start: string, end: string, queue: seq<(string, seq<string>)>,
                  visited: set<string>, processed: set<string>, level: nat, universe: set<string>)
    requires universe == {start} + Targets(lists)
    requires BfsState(lists, start, end, queue, visited, processed, level, universe) && queue != []
    requires end !in AdjOf(lists, queue[0].0)
    ensures BfsState(lists, start, end, queue[1..] + Pushes(queue[0].1, Fresh(AdjOf(lists, queue[0].0), visited)),
                     visited + Elems(AdjOf(lists, queue[0].0)), processed + {queue[0].0}, |queue[0].1|, universe)
    ensures |universe - (visited + Elems(AdjOf(lists, queue[0].0)))| < |universe - visited| ||
            (visited + Elems(AdjOf(lists, queue[0].0)) == visited &&
             |queue[1..] + Pushes(queue[0].1, Fresh(AdjOf(lists, queue[0].0), visited))| < |queue|)
  {
    var current, path := queue[0].0, queue[0].1;
    var nbrs := AdjOf(lists, current);
    PopKeeps(lists, start, queue, visited, level);
    TargetsHoldNeighbours(lists, current);
    ExpandKeeps(lists, start, end, current, path, queue[1..], visited, processed, universe);
    if visited + Elems(nbrs) != visited {
      StrictShrink(universe, visited, visited + Elems(nbrs));
    }
  }

  /** One step past `current` along a shortest walk to it reaches an
      unvisited name by a shortest walk. */
  lemma ShortestThrough(lists: map<string, seq<string>>, start: string, queue: seq<(string, seq<string>)>,
                        visited: set<string>, processed: set<string>, current: string, path: seq<string>, y: string)
    requires QueueOk(lists, start, queue, visited, |path|)
    requires visited <= processed + QueueNodes(queue) + {current}
    requires WalkTo(lists, start, path, current) && NoWalkShorter(lists, start, current, |path|)
    requires start in visited && Expanded(lists, processed, visited)
    requires y in AdjOf(lists, current) && y !in visited
    ensures WalkTo(lists, start, path + [y], y) && NoWalkShorter(lists, start, y, |path| + 1)
  {
    ExtendWalk(lists, start, path, current, y);
    Frontier(lists, start, queue, visited, processed, current, path);
    NoShortcut(lists, start, visited, processed, y, |path|);
  }

  /** A walk to `current` extended by a neighbour of `current`. */
  lemma ExtendWalk(lists: map<string, seq<string>>, start: string, path: seq<string>, current: string, y: string)
    requires WalkTo(lists, start, path, current) && y in AdjOf(lists, current)
    ensures WalkTo(lists, start, path + [y], y)
  {
    assert forall i :: 0 <= i < |path| ==> (path + [y])[i] == path[i];
  }

  /** With the frontier at distance `n`, an unvisited name is more than `n`
      names away. */
  lemma NoShortcut(lists: map<string, seq<string>>, start: string, visited: set<string>, processed: set<string>,
                   y: string, n: nat)
    requires start in visited && y !in visited
    requires Expanded(lists, processed, visited)
    requires forall x :: x in visited && x !in processed ==> NoWalkShorter(lists, start, x, n)
    ensures NoWalkShorter(lists, start, y, n + 1)
  {
    forall w | WalkTo(lists, start, w, y)
      ensures |w| >= n + 1
    {
      EscapeVisited(lists, start, processed, visited, w, n);
    }
  }

  lemma TargetsHoldNeighbours(lists: map<string, seq<string>>, u: string)
    ensures forall y :: y in AdjOf(lists, u) ==> y in Targets(lists)
  {
    forall y | y in AdjOf(lists, u)
      ensures y in Targets(lists)
    {
      assert u in lists && y in lists[u];
    }
  }

  /** Once every neighbour of `current` is visited, `current` counts as
      processed. */
  lemma FinishExpand(lists: map<string, seq<string>>, start: string, end: string, current: string, path: seq<string>,
                     queue: seq<(string, seq<string>)>, visited: set<string>, processed: set<string>, universe: set<string>)
    requires ExpandState(lists, start, end, current, path, queue, visited, processed, universe) && current in visited
    requires forall y :: y in AdjOf(lists, current) ==> y in visited
    ensures BfsState(lists, start, end, queue, visited, processed + {current}, |path|, universe)
  {
  }

  /** The state of the inner loop while `current` is expanded. */
  ghost predicate ExpandState(lists: map<string, seq<string>>, start: string, end: string, current: string, path: seq<string>,
                              queue: seq<(string, seq<string>)>, visited: set<string>, processed: set<string>,
                              universe: set<string>)
  {
    visited <= universe && start in visited && end !in visited && processed <= visited &&
    visited <= processed + QueueNodes(queue) + {current} && Expanded(lists, processed, visited) &&
    QueueOk(lists, start, queue, visited, |path|)
  }

  /** Visiting and queueing an unvisited neighbour of `current` keeps the
      state of the inner loop. */
  lemma VisitNeighbour(lists: map<string, seq<string>>, start: string, end: string, current: string, path: seq<string>,
                       queue: seq<(string, seq<string>)>, visited: set<string>, processed: set<string>,
                       universe: set<string>, y: string)
    requires ExpandState(lists, start, end, current, path, queue, visited, processed, universe)
    requires WalkTo(lists, start, path, current) && NoWalkShorter(lists, start, current, |path|)
    requires y in AdjOf(lists, current) && y !in visited && y != end && y in universe
    ensures ExpandState(lists, start, end, current, path, queue + [(y, path + [y])], visited + {y}, processed, universe)
  {
    ShortestThrough(lists, start, queue, visited, processed, current, path, y);
    PushKeeps(lists, start, queue, visited, |path|, y, path + [y]);
  }

  /** The names the inner loop of `_bfs_path` queues from `s` when `v` is
      visited: each name that is neither visited nor met before, in order. */
  function Fresh(s: seq<string>, v: set<string>): seq<string>
  {
    if s == [] then []
    else
      var y := s[|s| - 1];
      Fresh(s[..|s| - 1], v) + (if y in v || y in s[..|s| - 1] then [] else [y])
  }

  /** The queue entries for names reached in one more step along `path`. */
  function Pushes(path: seq<string>, ys: seq<string>): (r: seq<(string, seq<string>)>)
    ensures |r| == |ys| && forall i :: 0 <= i < |ys| ==> r[i] == (ys[i], path + [ys[i]])
  {
    seq(|ys|, i requires 0 <= i < |ys| => (ys[i], path + [ys[i]]))
  }

  lemma PushesSnoc(path: seq<string>, ys: seq<string>, y: string)
    ensures Pushes(path, ys + [y]) == Pushes(path, ys) + [(y, path + [y])]
  {
  }

  /** Names already visited add nothing to the queue. */
  lemma {:induction false} FreshOfVisited(s: seq<string>, v: set<string>)
    requires forall y :: y in s ==> y in v
    ensures Fresh(s, v) == []
  {
    if s != [] {
      FreshOfVisited(s[..|s| - 1], v);
    }
  }

  /** Expanding `current` over the first `k` of its neighbours keeps the
      state of the inner loop when the end is not among them. */
  lemma {:induction false} ExpandPrefix(lists: map<string, seq<string>>, start: string, end: string, current: string,
                                        path: seq<string>, queue: seq<(string, seq<string>)>, visited: set<string>,
                                        processed: set<string>, universe: set<string>, k: nat)
    requires ExpandState(lists, start, end, current, path, queue, visited, processed, universe)
    requires WalkTo(lists, start, path, current) && NoWalkShorter(lists, start, current, |path|)
    requires forall y :: y in AdjOf(lists, current) ==> y in universe && y != end
    requires k <= |AdjOf(lists, current)|
    ensures ExpandState(lists, start, end, current, path,
                        queue + Pushes(path, Fresh(AdjOf(lists, current)[..k], visited)),
                        visited + Elems(AdjOf(lists, current)[..k]), processed, universe)
  {
    var nbrs := AdjOf(lists, current);
    if k > 0 {
      ExpandPrefix(lists, start, end, current, path, queue, visited, processed, universe, k - 1);
      FreshStep(nbrs, k, visited, queue, path);
      var y := nbrs[k - 1];
      if !(y in visited || y in nbrs[..k - 1]) {
        VisitNeighbour(lists, start, end, current, path, queue + Pushes(path, Fresh(nbrs[..k - 1], visited)),
                       visited + Elems(nbrs[..k - 1]), processed, universe, y);
      }
    } else {
      FreshStart(nbrs, visited, queue, path);
    }
  }

  /** The bookkeeping of one more neighbour: the visited set gains it, and
      the queue gains its entry exactly when it is new. */
  lemma FreshStep(nbrs: seq<string>, k: nat, visited: set<string>, queue: seq<(string, seq<string>)>, path: seq<string>)
    requires 0 < k <= |nbrs|
    ensures visited + Elems(nbrs[..k]) == visited + Elems(nbrs[..k - 1]) + {nbrs[k - 1]}
    ensures nbrs[k - 1] in visited || nbrs[k - 1] in nbrs[..k - 1] ==>
      nbrs[k - 1] in visited + Elems(nbrs[..k - 1]) &&
      queue + Pushes(path, Fresh(nbrs[..k], visited)) == queue + Pushes(path, Fresh(nbrs[..k - 1], visited))
    ensures !(nbrs[k - 1] in visited || nbrs[k - 1] in nbrs[..k - 1]) ==>
      queue + Pushes(path, Fresh(nbrs[..k], visited)) ==
      queue + Pushes(path, Fresh(nbrs[..k - 1], visited)) + [(nbrs[k - 1], path + [nbrs[k - 1]])]
  {
    var before := nbrs[..k - 1];
    var y := nbrs[k - 1];
    assert nbrs[..k] == before + [y];
    assert nbrs[..k][..k - 1] == before;
    if !(y in visited || y in before) {
      PushesSnoc(path, Fresh(before, visited), y);
    }
  }

  lemma FreshStart(nbrs: seq<string>, visited: set<string>, queue: seq<(string, seq<string>)>, path: seq<string>)
    ensures queue + Pushes(path, Fresh(nbrs[..0], visited)) == queue
    ensures visited + Elems(nbrs[..0]) == visited
  {
    assert nbrs[..0] == [];
    assert queue + [] == queue;
  }

  /** After the inner loop over every neighbour of `current`, `current`
      counts as processed. */
  lemma ExpandKeeps(lists: map<string, seq<string>>, start: string, end: string, current: string, path: seq<string>,
                    queue: seq<(string, seq<string>)>, visited: set<string>, processed: set<string>, universe: set<string>)
    requires ExpandState(lists, start, end, current, path, queue, visited, processed, universe) && current in visited
    requires WalkTo(lists, start, path, current) && NoWalkShorter(lists, start, current, |path|)
    requires forall y :: y in AdjOf(lists, current) ==> y in universe && y != end
    ensures BfsState(lists, start, end, queue + Pushes(path, Fresh(AdjOf(lists, current), visited)),
                     visited + Elems(AdjOf(lists, current)), processed + {current}, |path|, universe)
    ensures visited + Elems(AdjOf(lists, current)) == visited ==> Fresh(AdjOf(lists, current), visited) == []
  {
    var nbrs := AdjOf(lists, current);
    ExpandPrefix(lists, start, end, current, path, queue, visited, processed, universe, |nbrs|);
    assert nbrs[..|nbrs|] == nbrs;
    FinishExpand(lists, start, end, current, path, queue + Pushes(path, Fresh(nbrs, visited)),
                 visited + Elems(nbrs), processed, universe);
    if visited + Elems(nbrs) == visited {
      FreshOfVisited(nbrs, visited);
    }
  }

  /** The inner loop of `_bfs_path`: visit and queue each unvisited
      neighbour of `current`, stopping at the end. */
  method ExpandNode(lists: map<string, seq<string>>, end: string, current: string, path: seq<string>,
                    queue0: seq<(string, seq<string>)>, visited0: set<string>)
    returns (found: Option<seq<string>>, queue: seq<(string, seq<string>)>, visited: set<string>)
    ensures found.Some? <==> end in AdjOf(lists, current)
    ensures found.Some? ==> found.value == path + [end]
    ensures found.None? ==> queue == queue0 + Pushes(path, Fresh(AdjOf(lists, current), visited0))
    ensures found.None? ==> visited == visited0 + Elems(AdjOf(lists, current))
  {
    queue, visited := queue0, visited0;
    var nbrs := AdjOf(lists, current);
    var k := 0;
    FreshStart(nbrs, visited0, queue0, path);
    while k < |nbrs|
      invariant k <= |nbrs|
      invariant forall j :: 0 <= j < k ==> nbrs[j] != end
      invariant visited == visited0 + Elems(nbrs[..k])
      invariant queue == queue0 + Pushes(path, Fresh(nbrs[..k], visited0))
    {
      var neighbor := nbrs[k];
      if neighbor == end {
        return Some(path + [neighbor]), queue, visited;
      }
      FreshStep(nbrs, k + 1, visited0, queue0, path);
      if neighbor !in visited {
        visited := visited + {neighbor};
        queue := queue + [(neighbor, path + [neighbor])];
      }
      k := k + 1;
    }
    assert nbrs[..k] == nbrs;
    return None, queue, visited;
  }

  // ---------------------------------------------------------------------
  // Node filters

  /** `_node_type_map`: each name mapped to the type of the last node
      carrying it. */
  function TypeMap(nodes: seq<SimplifiedNode>): (r: map<string, string>)
    ensures forall x :: x in r <==> x in NameList(nodes)
    ensures forall x :: x in r ==> r[x] == NodeMap(nodes)[x].kind
  {
    map x | x in NodeMap(nodes) :: NodeMap(nodes)[x].kind
  }

  /** A node passes the filters of `_find_nodes`; an absent or empty filter
      passes everything, and the name test ignores ASCII case. */
  predicate Matches(n: SimplifiedNode, nodeType: Option<string>, nameContains: Option<string>)
  {
    !(Truthy(nodeType) && n.kind != nodeType.value) &&
    !(Truthy(nameContains) && !Contains(Lower(n.name), Lower(nameContains.value)))
  }

  /** The names of the matching nodes, in the order of the nodes. */
  function Matching(nodes: seq<SimplifiedNode>, nodeType: Option<string>, nameContains: Option<string>): seq<string>
  {
    if nodes == [] then []
    else (if Matches(nodes[0], nodeType, nameContains) then [nodes[0].name] else []) + Matching(nodes[1..], nodeType, nameContains)
  }

  /** The filter keeps exactly the names of matching nodes. */
  lemma {:induction false} MatchingExact(nodes: seq<SimplifiedNode>, nodeType: Option<string>, nameContains: Option<string>, x: string)
    ensures x in Matching(nodes, nodeType, nameContains) <==>
            exists i :: 0 <= i < |nodes| && nodes[i].name == x && Matches(nodes[i], nodeType, nameContains)
  {
    if nodes != [] {
      MatchingExact(nodes[1..], nodeType, nameContains, x);
      assert forall i :: 1 <= i < |nodes| ==> nodes[i] == nodes[1..][i - 1];
      if exists i :: 1 <= i < |nodes| && nodes[i].name == x && Matches(nodes[i], nodeType, nameContains) {
        var i :| 1 <= i < |nodes| && nodes[i].name == x && Matches(nodes[i], nodeType, nameContains);
        assert nodes[1..][i - 1] == nodes[i];
      }
    }
  }

  /** Without filters every node name is found, in order. */
  lemma {:induction false} MatchingUnfiltered(nodes: seq<SimplifiedNode>)
    ensures Matching(nodes, None, None) == NameList(nodes)
  {
    if nodes != [] {
      MatchingUnfiltered(nodes[1..]);
      assert NameList(nodes) == [nodes[0].name] + NameList(nodes[1..]);
    }
  }

  /** `_find_nodes`. */
  method FindNodes(nodes: seq<SimplifiedNode>, nodeType: Option<string>, nameContains: Option<string>) returns (results: seq<string>)
    ensures results == Matching(nodes, nodeType, nameContains)
  {
    results := [];
    var i := 0;
    assert nodes[i..] == nodes;
    while i < |nodes|
      invariant i <= |nodes|
      invariant Matching(nodes, nodeType, nameContains) == results + Matching(nodes[i..], nodeType, nameContains)
    {
      var n := nodes[i];
      assert nodes[i..][1..] == nodes[i + 1..];
      ghost var before := results;
      if Truthy(nodeType) && n.kind != nodeType.value {
      } else if Truthy(nameContains) && !Contains(Lower(n.name), Lower(nameContains.value)) {
      } else {
        results := results + [n.name];
      }
      AppendStep(before, results, if Matches(n, nodeType, nameContains) then [n.name] else [],
                 Matching(nodes[i + 1..], nodeType, nameContains));
      i := i + 1;
    }
    assert nodes[i..] == [];
  }

  // ---------------------------------------------------------------------
  // Assertions

  /** A logical assertion: its type, and the filters and types the three
      checkers read from it. */
  datatype Assertion = Assertion(
    kind: string,
    fromType: Option<string>,
    fromNameContains: Option<string>,
    toType: Option<string>,
    toNameContains: Option<string>,
    mustTraverse: seq<string>,
    nodeType: Option<string>,
    neighborType: Option<string>,
    nodeNameContains: Option<string>)

  /** Two different names, the second reachable from the first. */
  ghost predicate Connected(lists: map<string, seq<string>>, a: string, b: string)
  {
    a != b && Reaches(lists, a, b)
  }

  /** `(i, j)` is the first pair, scanning sources then targets, that is
      connected. */
  ghost predicate FirstConnected(lists: map<string, seq<string>>, froms: seq<string>, tos: seq<string>, i: int, j: int)
  {
    0 <= i < |froms| && 0 <= j && j < |tos| && Connected(lists, froms[i], tos[j]) &&
    forall i', j' :: 0 <= i' < |froms| && 0 <= j' < |tos| && (i' < i || (i' == i && j' < j)) ==> !Connected(lists, froms[i'], tos[j'])
  }

  ghost predicate AnyConnected(lists: map<string, seq<string>>, froms: seq<string>, tos: seq<string>)
  {
    exists i, j :: 0 <= i < |froms| && 0 <= j < |tos| && Connected(lists, froms[i], tos[j])
  }

  /** A connected pair after only unconnected ones is the first. */
  lemma FirstPair(lists: map<string, seq<string>>, froms: seq<string>, tos: seq<string>, i: nat, j: nat)
    requires i < |froms| && j < |tos| && Connected(lists, froms[i], tos[j])
    requires forall i', j' :: 0 <= i' < i && 0 <= j' < |tos| ==> !Connected(lists, froms[i'], tos[j'])
    requires forall j' :: 0 <= j' < j ==> !Connected(lists, froms[i], tos[j'])
    ensures FirstConnected(lists, froms, tos, i, j)
  {
  }

  /** One pair of the scan: equal names are skipped, others searched. */
  method PairPath(lists: map<string, seq<string>>, a: string, b: string) returns (p: Option<seq<string>>)
    ensures p == (if a == b then None else BfsFrom(lists, a, b))
    ensures p.None? <==> !Connected(lists, a, b)
    ensures p.Some? ==> IsShortestWalk(lists, p.value, a, b)
  {
    if a == b {
      return None;
    }
    p := BfsPath(lists, a, b);
  }

  /** The inner loop of the pair scan: the first target connected to
      `from`. */
  method FirstTarget(lists: map<string, seq<string>>, from: string, tos: seq<string>) returns (path: Option<seq<string>>, ghost j: int)
    ensures path.None? ==> forall j' :: 0 <= j' < |tos| ==> !Connected(lists, from, tos[j'])
    ensures path.Some? ==> 0 <= j < |tos| && Connected(lists, from, tos[j]) && path == BfsFrom(lists, from, tos[j])
    ensures path.Some? ==> forall j' :: 0 <= j' < j ==> !Connected(lists, from, tos[j'])
  {
    var k := 0;
    while k < |tos|
      invariant k <= |tos|
      invariant forall j' :: 0 <= j' < k ==> !Connected(lists, from, tos[j'])
    {
      path := PairPath(lists, from, tos[k]);
      if path.Some? {
        return path, k;
      }
      k := k + 1;
    }
    return None, 0;
  }

  /** The pair loop shared by the path assertions: the shortest path of the
      first connected pair of distinct names, if any. */
  method FirstConnectedPath(lists: map<string, seq<string>>, froms: seq<string>, tos: seq<string>)
    returns (path: Option<seq<string>>, ghost fi: int, ghost ti: int)
    ensures path.None? <==> !AnyConnected(lists, froms, tos)
    ensures path.Some? ==> FirstConnected(lists, froms, tos, fi, ti) && path == BfsFrom(lists, froms[fi], tos[ti])
    ensures path.Some? ==> IsShortestWalk(lists, path.value, froms[fi], tos[ti])
  {
    var i := 0;
    while i < |froms|
      invariant i <= |froms|
      invariant forall i', j' :: 0 <= i' < i && 0 <= j' < |tos| ==> !Connected(lists, froms[i'], tos[j'])
    {
      ghost var j;
      path, j := FirstTarget(lists, froms[i], tos);
      if path.Some? {
        FirstPair(lists, froms, tos, i, j);
        BfsFromMeaning(lists, froms[i], tos[j]);
        return path, i, j;
      }
      i := i + 1;
    }
    return None, 0, 0;
  }

  /** The assertion `end_to_end_path_exists` holds: some source and some
      different target are connected. */
  ghost predicate EndToEndHolds(t: SimplifiedTopology, a: Assertion)
  {
    AnyConnected(AdjacencyLists(t), Matching(t.nodes, a.fromType, a.fromNameContains), Matching(t.nodes, a.toType, a.toNameContains))
  }

  /** `check_end_to_end_path`; an empty source or target list fails. */
  method CheckEndToEndPath(t: SimplifiedTopology, a: Assertion) returns (ok: bool)
    ensures ok <==> EndToEndHolds(t, a)
  {
    var adj := BuildAdjacencyList(t);
    var fromNodes := FindNodes(t.nodes, a.fromType, a.fromNameContains);
    var toNodes := FindNodes(t.nodes, a.toType, a.toNameContains);
    if fromNodes == [] || toNodes == [] {
      return false;
    }
    var path, _, _ := FirstConnectedPath(adj.lists, fromNodes, toNodes);
    return path.Some?;
  }

  /** The types of the known names on a path. */
  function TypesOn(p: seq<string>, typeMap: map<string, string>): set<string>
  {
    set n | n in p && n in typeMap :: typeMap[n]
  }

  /** The types on the path `_bfs_path` finds from `a` to `b`. */
  function PathTypes(lists: map<string, seq<string>>, a: string, b: string, typeMap: map<string, string>): set<string>
  {
    match BfsFrom(lists, a, b)
    case Some(p) => TypesOn(p, typeMap)
    case None => {}
  }

  /** The verdict of `path_traverses_type` on given sources and targets:
      with a connected pair, whether the path the breadth-first search finds
      for the first such pair shows every required type; otherwise
      failure. */
  ghost predicate TraverseVerdictOn(lists: map<string, seq<string>>, froms: seq<string>, tos: seq<string>,
                                    must: seq<string>, typeMap: map<string, string>, ok: bool)
  {
    if !AnyConnected(lists, froms, tos) then !ok
    else exists i, j :: FirstConnected(lists, froms, tos, i, j) && (ok <==> Elems(must) <= PathTypes(lists, froms[i], tos[j], typeMap))
  }

  /** Only one pair is the first connected one. */
  lemma FirstConnectedUnique(lists: map<string, seq<string>>, froms: seq<string>, tos: seq<string>, i: int, j: int, i': int, j': int)
    requires FirstConnected(lists, froms, tos, i, j) && FirstConnected(lists, froms, tos, i', j')
    ensures i == i' && j == j'
  {
  }

  /** The verdict is a function of the topology: ties between shortest
      paths are settled by the order of the adjacency lists. */
  lemma TraverseVerdictUnique(lists: map<string, seq<string>>, froms: seq<string>, tos: seq<string>,
                              must: seq<string>, typeMap: map<string, string>, ok1: bool, ok2: bool)
    requires TraverseVerdictOn(lists, froms, tos, must, typeMap, ok1)
    requires TraverseVerdictOn(lists, froms, tos, must, typeMap, ok2)
    ensures ok1 == ok2
  {
    if AnyConnected(lists, froms, tos) {
      var i, j :| FirstConnected(lists, froms, tos, i, j) && (ok1 <==> Elems(must) <= PathTypes(lists, froms[i], tos[j], typeMap));
      var i', j' :| FirstConnected(lists, froms, tos, i', j') && (ok2 <==> Elems(must) <= PathTypes(lists, froms[i'], tos[j'], typeMap));
      FirstConnectedUnique(lists, froms, tos, i, j, i', j');
    }
  }

  /** The square A - B - D, A - C - D with A's neighbours listed B first. */
  function Square(): map<string, seq<string>>
  {
    map["A" := ["B", "C"], "B" := ["A", "D"], "C" := ["A", "D"], "D" := ["B", "C"]]
  }

  /** Of the two shortest paths from A to D in the square, the search
      returns the one through B, the first neighbour of A. */
  lemma SquarePathGoesFirstWay()
    ensures BfsFrom(Square(), "A", "D") == Some(["A", "B", "D"])
  {
    var lists := Square();
    var nbrs := AdjOf(lists, "A");
    assert nbrs == ["B", "C"];
    assert Fresh(nbrs, {"A"}) == ["B", "C"] by {
      assert nbrs[..1] == ["B"];
      assert Fresh(["B"], {"A"}) == ["B"] by { assert ["B"][..0] == []; }
    }
    var q := Pushes(["A"], ["B", "C"]);
    var v := {"A"} + Elems(nbrs);
    assert [("A", ["A"])][1..] + q == q;
    assert BfsRun(lists, "D", [("A", ["A"])], {"A"}) == BfsRun(lists, "D", q, v);
    assert ["A"] + ["B"] == ["A", "B"];
    assert q[0] == ("B", ["A", "B"]);
    assert AdjOf(lists, "B") == ["A", "D"];
    assert ["A", "B"] + ["D"] == ["A", "B", "D"];
    assert BfsRun(lists, "D", q, v) == Some(["A", "B", "D"]);
  }

  /** The same verdict for an assertion over a topology. */
  ghost predicate TraverseVerdict(t: SimplifiedTopology, a: Assertion, ok: bool)
  {
    TraverseVerdictOn(AdjacencyLists(t), Matching(t.nodes, a.fromType, a.fromNameContains),
                      Matching(t.nodes, a.toType, a.toNameContains), a.mustTraverse, TypeMap(t.nodes), ok)
  }

  /** The body of `check_path_traverses_type` once the sources and targets
      are found: only the first connected pair decides. */
  method TraverseFirstPair(lists: map<string, seq<string>>, froms: seq<string>, tos: seq<string>,
                           must: seq<string>, typeMap: map<string, string>) returns (ok: bool)
    ensures TraverseVerdictOn(lists, froms, tos, must, typeMap, ok)
  {
    var mustTraverse := Elems(must);
    if froms == [] || tos == [] {
      return false;
    }
    ghost var fi, ti;
    var path;
    path, fi, ti := FirstConnectedPath(lists, froms, tos);
    if path.None? {
      return false;
    }
    var traversed := TypesOn(path.value, typeMap);
    var missing := mustTraverse - traversed;
    ok := missing == {};
    if !(mustTraverse <= traversed) {
      var k :| k in mustTraverse && k !in traversed;
      assert k in missing;
    }
    assert traversed == PathTypes(lists, froms[fi], tos[ti], typeMap);
    assert FirstConnected(lists, froms, tos, fi, ti);
  }

  /** `check_path_traverses_type`. */
  method CheckPathTraversesType(t: SimplifiedTopology, a: Assertion) returns (ok: bool)
    ensures TraverseVerdict(t, a, ok)
  {
    var adj := BuildAdjacencyList(t);
    var typeMap := TypeMap(t.nodes);
    var fromNodes := FindNodes(t.nodes, a.fromType, a.fromNameContains);
    var toNodes := FindNodes(t.nodes, a.toType, a.toNameContains);
    ok := TraverseFirstPair(adj.lists, fromNodes, toNodes, a.mustTraverse, typeMap);
  }

  /** The types of the known neighbours of `x`. */
  function NeighbourTypes(vs: seq<string>, typeMap: map<string, string>): (r: seq<string>)
    ensures forall k :: k in r <==> exists v :: v in vs && v in typeMap && typeMap[v] == k
  {
    if vs == [] then []
    else (if vs[0] in typeMap then [typeMap[vs[0]]] else []) + NeighbourTypes(vs[1..], typeMap)
  }

  /** `x` has a known neighbour of the expected type; an absent expected
      type is never found. */
  predicate HasNeighbourOfType(lists: map<string, seq<string>>, typeMap: map<string, string>, x: string, expected: Option<string>)
  {
    expected.Some? && exists v :: v in AdjOf(lists, x) && v in typeMap && typeMap[v] == expected.value
  }

  /** The assertion `direct_neighbor_type` holds: some node matches, and
      every matching node has a neighbour of the expected type. */
  predicate DirectNeighbourHolds(t: SimplifiedTopology, a: Assertion)
  {
    var nodes := Matching(t.nodes, a.nodeType, a.nodeNameContains);
    |nodes| > 0 &&
    forall k :: 0 <= k < |nodes| ==> HasNeighbourOfType(AdjacencyLists(t), TypeMap(t.nodes), nodes[k], a.neighborType)
  }

  /** The nodes of `s` without a neighbour of the expected type, in order. */
  function Failing(s: seq<string>, lists: map<string, seq<string>>, typeMap: map<string, string>, expected: Option<string>): seq<string>
  {
    if s == [] then []
    else
      var x := s[|s| - 1];
      Failing(s[..|s| - 1], lists, typeMap, expected) + (if HasNeighbourOfType(lists, typeMap, x, expected) then [] else [x])
  }

  /** A node is reported exactly when it lacks the expected neighbour. */
  lemma {:induction false} FailingExact(s: seq<string>, lists: map<string, seq<string>>, typeMap: map<string, string>,
                                        expected: Option<string>, x: string)
    ensures x in Failing(s, lists, typeMap, expected) <==> x in s && !HasNeighbourOfType(lists, typeMap, x, expected)
  {
    if s != [] {
      var p := s[..|s| - 1];
      FailingExact(p, lists, typeMap, expected, x);
      assert s == p + [s[|s| - 1]];
    }
  }

  /** Nothing is reported exactly when every node has the expected
      neighbour. */
  lemma FailingEmpty(s: seq<string>, lists: map<string, seq<string>>, typeMap: map<string, string>, expected: Option<string>)
    ensures Failing(s, lists, typeMap, expected) == [] <==>
            forall k :: 0 <= k < |s| ==> HasNeighbourOfType(lists, typeMap, s[k], expected)
  {
    var f := Failing(s, lists, typeMap, expected);
    if f != [] {
      FailingExact(s, lists, typeMap, expected, f[0]);
      assert f[0] in f;
    } else {
      forall k | 0 <= k < |s|
        ensures HasNeighbourOfType(lists, typeMap, s[k], expected)
      {
        FailingExact(s, lists, typeMap, expected, s[k]);
      }
    }
  }

  /** The test `expected_neighbor not in neighbor_types` of one node. */
  lemma NeighbourTypesTest(lists: map<string, seq<string>>, typeMap: map<string, string>, x: string, expected: Option<string>)
    ensures (expected.Some? && expected.value in NeighbourTypes(AdjOf(lists, x), typeMap)) <==>
            HasNeighbourOfType(lists, typeMap, x, expected)
  {
  }

  /** One more node: it joins the failures exactly when it lacks the
      expected neighbour. */
  lemma FailingStep(nodes: seq<string>, k: nat, lists: map<string, seq<string>>, typeMap: map<string, string>, expected: Option<string>)
    requires k < |nodes|
    ensures Failing(nodes[..k + 1], lists, typeMap, expected) ==
      Failing(nodes[..k], lists, typeMap, expected) + (if HasNeighbourOfType(lists, typeMap, nodes[k], expected) then [] else [nodes[k]])
  {
    assert nodes[..k + 1][..k] == nodes[..k];
  }

  /** The loop of `check_direct_neighbor` over the matching nodes. */
  method CollectFailing(nodes: seq<string>, lists: map<string, seq<string>>, typeMap: map<string, string>, expected: Option<string>)
    returns (failures: seq<string>)
    ensures failures == Failing(nodes, lists, typeMap, expected)
  {
    failures := [];
    var k := 0;
    while k < |nodes|
      invariant k <= |nodes|
      invariant failures == Failing(nodes[..k], lists, typeMap, expected)
    {
      var node := nodes[k];
      var neighborTypes := NeighbourTypes(AdjOf(lists, node), typeMap);
      NeighbourTypesTest(lists, typeMap, node, expected);
      FailingStep(nodes, k, lists, typeMap, expected);
      if !(expected.Some? && expected.value in neighborTypes) {
        failures := failures + [node];
      }
      k := k + 1;
    }
    assert nodes[..k] == nodes;
  }

  /** `check_direct_neighbor`; `failures` lists the matching nodes without
      such a neighbour. */
  method CheckDirectNeighbor(t: SimplifiedTopology, a: Assertion) returns (ok: bool, failures: seq<string>)
    ensures ok <==> DirectNeighbourHolds(t, a)
    ensures failures == Failing(Matching(t.nodes, a.nodeType, a.nodeNameContains), AdjacencyLists(t), TypeMap(t.nodes), a.neighborType)
  {
    var adj := BuildAdjacencyList(t);
    var typeMap := TypeMap(t.nodes);
    var nodes := FindNodes(t.nodes, a.nodeType, a.nodeNameContains);
    if nodes == [] {
      return false, [];
    }
    failures := CollectFailing(nodes, adj.lists, typeMap, a.neighborType);
    ok := failures == [];
    FailingEmpty(nodes, adj.lists, typeMap, a.neighborType);
  }

  // ---------------------------------------------------------------------
  // Scores

  /** `passed / total`, or 1.0 when there is nothing to check. */
  function Share(passed: nat, total: nat): (r: real)
    requires passed <= total
    ensures 0.0 <= r <= 1.0
    ensures r == 1.0 <==> passed == total
    ensures r == 0.0 <==> 0 < total && passed == 0
  {
    if total == 0 then 1.0
    else
      var q := passed as real / total as real;
      Ratio(passed, total);
      Quotient(passed as real, total as real, q);
      q
  }

  /** `score_structural_validity`: 1.0 for a valid topology, 0.0 otherwise;
      `None` where the validator raises. */
  method ScoreStructuralValidity(t: SimplifiedTopology) returns (r: Option<(real, Report)>)
    ensures r.None? <==> Validation(t).Crashed?
    ensures r.Some? ==> r.value.1 == Validation(t) && (r.value.0 == if Validation(t).isValid then 1.0 else 0.0)
  {
    var report := ValidateStaticTopology(t);
    if report.Crashed? {
      return None;
    }
    var score := if report.isValid then 1.0 else 0.0;
    return Some((score, report));
  }

  /** The verdict the dispatcher may give on one assertion; an unknown type
      fails. */
  ghost predicate AssertionVerdict(t: SimplifiedTopology, a: Assertion, ok: bool)
  {
    if a.kind == "end_to_end_path_exists" then ok == EndToEndHolds(t, a)
    else if a.kind == "path_traverses_type" then TraverseVerdict(t, a, ok)
    else if a.kind == "direct_neighbor_type" then ok == DirectNeighbourHolds(t, a)
    else !ok
  }

  /** `ASSERTION_CHECKERS.get(kind)` and the call of the checker found. */
  method CheckAssertion(t: SimplifiedTopology, a: Assertion) returns (ok: bool)
    ensures AssertionVerdict(t, a, ok)
  {
    if a.kind == "end_to_end_path_exists" {
      ok := CheckEndToEndPath(t, a);
    } else if a.kind == "path_traverses_type" {
      ok := CheckPathTraversesType(t, a);
    } else if a.kind == "direct_neighbor_type" {
      var failures;
      ok, failures := CheckDirectNeighbor(t, a);
    } else {
      ok := false;
    }
  }

  /** The number of passed entries. */
  function CountTrue(s: seq<bool>): (n: nat)
    ensures n <= |s|
  {
    if s == [] then 0 else CountTrue(s[..|s| - 1]) + (if s[|s| - 1] then 1 else 0)
  }

  /** Every entry passed exactly when all of them count, and none did
      exactly when the count is zero. */
  lemma {:induction false} CountTrueExtremes(s: seq<bool>)
    ensures CountTrue(s) == |s| <==> forall k :: 0 <= k < |s| ==> s[k]
    ensures CountTrue(s) == 0 <==> forall k :: 0 <= k < |s| ==> !s[k]
  {
    if s != [] {
      var p := s[..|s| - 1];
      CountTrueExtremes(p);
      assert forall k :: 0 <= k < |p| ==> p[k] == s[k];
    }
  }

  /** `score_logical_correctness`: one verdict per assertion and the share
      of those passed, 1.0 for no assertions. */
  method ScoreLogicalCorrectness(t: SimplifiedTopology, assertions: seq<Assertion>) returns (score: real, results: seq<bool>)
    ensures |results| == |assertions|
    ensures forall k :: 0 <= k < |assertions| ==> AssertionVerdict(t, assertions[k], results[k])
    ensures score == Share(CountTrue(results), |assertions|)
  {
    if assertions == [] {
      return 1.0, [];
    }
    results := [];
    var passed := 0;
    var k := 0;
    while k < |assertions|
      invariant k <= |assertions| && |results| == k
      invariant passed == CountTrue(results)
      invariant forall j :: 0 <= j < k ==> AssertionVerdict(t, assertions[j], results[j])
    {
      var ok := CheckAssertion(t, assertions[k]);
      assert (results + [ok])[..k] == results;
      assert forall j :: 0 <= j < k ==> (results + [ok])[j] == results[j];
      results := results + [ok];
      if ok {
        passed := passed + 1;
      }
      k := k + 1;
    }
    score := passed as real / |assertions| as real;
  }

  /** The logical score is 1.0 exactly when every assertion passed, and 0.0
      exactly when there were some and none passed. */
  lemma LogicalScoreMeaning(results: seq<bool>)
    ensures Share(CountTrue(results), |results|) == 1.0 <==> forall k :: 0 <= k < |results| ==> results[k]
    ensures Share(CountTrue(results), |results|) == 0.0 <==> |results| > 0 && forall k :: 0 <= k < |results| ==> !results[k]
  {
    CountTrueExtremes(results);
  }

  /** The expectations of `score_requirement_fulfillment`: exact and
      minimum counts per node type, and optional minimum network and zone
      counts. */
  datatype Expected = Expected(
    nodeTypes: seq<(string, int)>,
    minNodeTypes: seq<(string, int)>,
    minNetworks: Option<int>,
    minZones: Option<int>)

  /** How many of `keys` have type `kind`. */
  function CountType(keys: seq<string>, typeMap: map<string, string>, kind: string): (n: nat)
    ensures n <= |keys|
  {
    if keys == [] then 0
    else
      var k := keys[|keys| - 1];
      CountType(keys[..|keys| - 1], typeMap, kind) + (if k in typeMap && typeMap[k] == kind then 1 else 0)
  }

  /** A type has no node exactly when no key carries it. */
  lemma {:induction false} CountTypeZero(keys: seq<string>, typeMap: map<string, string>, kind: string)
    ensures CountType(keys, typeMap, kind) == 0 <==> forall j :: 0 <= j < |keys| && keys[j] in typeMap ==> typeMap[keys[j]] != kind
  {
    if keys != [] {
      var p := keys[..|keys| - 1];
      CountTypeZero(p, typeMap, kind);
      assert forall j :: 0 <= j < |p| ==> p[j] == keys[j];
    }
  }

  /** One requirement check: whether it passed and the issue it reports
      otherwise. */
  datatype Check = Check(passed: bool, issue: string)

  /** One check of an expected count: exact, or a minimum. */
  function CountCheck(kind: string, expected: int, actual: nat, exact: bool): (c: Check)
    ensures c.passed <==> if exact then actual == expected else actual >= expected
  {
    if exact then Check(actual == expected, kind + ": expected " + IntToString(expected) + ", got " + NatToString(actual))
    else Check(actual >= expected, kind + ": expected >= " + IntToString(expected) + ", got " + NatToString(actual))
  }

  /** The checks of one dictionary of expected counts, against the number
      of nodes of each type. */
  function CountChecks(items: seq<(string, int)>, keys: seq<string>, typeMap: map<string, string>, exact: bool): (r: seq<Check>)
    ensures |r| == |items|
  {
    if items == [] then []
    else
      var n := |items| - 1;
      CountChecks(items[..n], keys, typeMap, exact) + [CountCheck(items[n].0, items[n].1, CountType(keys, typeMap, items[n].0), exact)]
  }

  /** The check of an optional minimum, present only with the key. */
  function MinimumCheck(title: string, minimum: Option<int>, actual: nat): (r: seq<Check>)
    ensures |r| == (if minimum.Some? then 1 else 0)
    ensures minimum.Some? ==> (r[0].passed <==> actual >= minimum.value)
  {
    if minimum.None? then []
    else [Check(actual >= minimum.value, title + ": expected >= " + IntToString(minimum.value) + ", got " + NatToString(actual))]
  }

  /** Every check `score_requirement_fulfillment` runs, in order. */
  function RequirementChecks(t: SimplifiedTopology, e: Expected): seq<Check>
  {
    var keys, typeMap := Names(t.nodes), TypeMap(t.nodes);
    CountChecks(e.nodeTypes, keys, typeMap, true) + CountChecks(e.minNodeTypes, keys, typeMap, false) +
    MinimumCheck("Networks", e.minNetworks, |t.networks|) + MinimumCheck("Zones", e.minZones, |t.zones|)
  }

  /** The number of passed checks. */
  function PassedCount(cs: seq<Check>): (n: nat)
    ensures n <= |cs|
  {
    if cs == [] then 0 else PassedCount(cs[..|cs| - 1]) + (if cs[|cs| - 1].passed then 1 else 0)
  }

  /** The issues of the failed checks, in order. */
  function Issues(cs: seq<Check>): seq<string>
  {
    if cs == [] then []
    else Issues(cs[..|cs| - 1]) + (if cs[|cs| - 1].passed then [] else [cs[|cs| - 1].issue])
  }

  /** Each check either passes or reports one issue. */
  lemma {:induction false} IssuesCount(cs: seq<Check>)
    ensures |Issues(cs)| + PassedCount(cs) == |cs|
  {
    if cs != [] {
      IssuesCount(cs[..|cs| - 1]);
    }
  }

  /** The requirement score is 1.0 exactly when no issue is reported. */
  lemma RequirementScoreMeaning(t: SimplifiedTopology, e: Expected)
    ensures var cs := RequirementChecks(t, e);
      Share(PassedCount(cs), |cs|) == 1.0 <==> Issues(cs) == []
  {
    IssuesCount(RequirementChecks(t, e));
  }

  /** One check is run per expectation. */
  lemma RequirementChecksLength(t: SimplifiedTopology, e: Expected)
    ensures |RequirementChecks(t, e)| ==
      |e.nodeTypes| + |e.minNodeTypes| + (if e.minNetworks.Some? then 1 else 0) + (if e.minZones.Some? then 1 else 0)
  {
    var keys, typeMap := Names(t.nodes), TypeMap(t.nodes);
    var a, b := CountChecks(e.nodeTypes, keys, typeMap, true), CountChecks(e.minNodeTypes, keys, typeMap, false);
    var c, d := MinimumCheck("Networks", e.minNetworks, |t.networks|), MinimumCheck("Zones", e.minZones, |t.zones|);
    assert RequirementChecks(t, e) == a + b + c + d;
  }

  /** `type_counts`: for every type, the number of distinct names whose
      node has that type. */
  method CountTypes(keys: seq<string>, typeMap: map<string, string>) returns (counts: map<string, nat>)
    ensures forall kind :: Lookup(counts, kind) == CountType(keys, typeMap, kind)
  {
    counts := map[];
    var k := 0;
    while k < |keys|
      invariant k <= |keys|
      invariant forall kind :: Lookup(counts, kind) == CountType(keys[..k], typeMap, kind)
    {
      assert keys[..k + 1][..k] == keys[..k];
      if keys[k] in typeMap {
        var kind := typeMap[keys[k]];
        counts := counts[kind := (if kind in counts then counts[kind] else 0) + 1];
      }
      k := k + 1;
    }
    assert keys[..k] == keys;
  }

  /** `type_counts.get(kind, 0)`. */
  function Lookup(counts: map<string, nat>, kind: string): nat
  {
    if kind in counts then counts[kind] else 0
  }

  /** The checks of one dictionary of expected counts against a dictionary
      of counts. */
  function ChecksAgainst(items: seq<(string, int)>, counts: map<string, nat>, exact: bool): (r: seq<Check>)
    ensures |r| == |items|
  {
    if items == [] then []
    else
      var n := |items| - 1;
      ChecksAgainst(items[..n], counts, exact) + [CountCheck(items[n].0, items[n].1, Lookup(counts, items[n].0), exact)]
  }

  /** Checking against the counted types is checking against the number of
      nodes of each type. */
  lemma {:induction false} ChecksAgainstCounts(items: seq<(string, int)>, counts: map<string, nat>, keys: seq<string>,
                                               typeMap: map<string, string>, exact: bool)
    requires forall kind :: Lookup(counts, kind) == CountType(keys, typeMap, kind)
    ensures ChecksAgainst(items, counts, exact) == CountChecks(items, keys, typeMap, exact)
  {
    if items != [] {
      var n := |items| - 1;
      ChecksAgainstCounts(items[..n], counts, keys, typeMap, exact);
      assert Lookup(counts, items[n].0) == CountType(keys, typeMap, items[n].0);
    }
  }

  /** The checks of one dictionary of expected counts, exact or minimum:
      how many pass, and the issues of those that fail. */
  method RunCountChecks(items: seq<(string, int)>, counts: map<string, nat>, exact: bool)
      returns (passed: nat, issues: seq<string>)
    ensures passed == PassedCount(ChecksAgainst(items, counts, exact))
    ensures issues == Issues(ChecksAgainst(items, counts, exact))
  {
    passed, issues := 0, [];
    var k := 0;
    while k < |items|
      invariant k <= |items|
      invariant passed == PassedCount(ChecksAgainst(items[..k], counts, exact))
      invariant issues == Issues(ChecksAgainst(items[..k], counts, exact))
    {
      var c := CountCheck(items[k].0, items[k].1, Lookup(counts, items[k].0), exact);
      RunStep(items, counts, exact, k);
      if c.passed {
        passed := passed + 1;
      } else {
        issues := issues + [c.issue];
      }
      k := k + 1;
    }
    assert items[..k] == items;
  }

  /** Running one more expectation adds its outcome to the tally. */
  lemma RunStep(items: seq<(string, int)>, counts: map<string, nat>, exact: bool, k: nat)
    requires k < |items|
    ensures var c := CountCheck(items[k].0, items[k].1, Lookup(counts, items[k].0), exact);
      PassedCount(ChecksAgainst(items[..k + 1], counts, exact)) ==
        PassedCount(ChecksAgainst(items[..k], counts, exact)) + (if c.passed then 1 else 0) &&
      Issues(ChecksAgainst(items[..k + 1], counts, exact)) ==
        Issues(ChecksAgainst(items[..k], counts, exact)) + (if c.passed then [] else [c.issue])
  {
    ChecksAgainstStep(items, counts, exact, k);
    CheckSnoc(ChecksAgainst(items[..k], counts, exact), CountCheck(items[k].0, items[k].1, Lookup(counts, items[k].0), exact));
  }

  /** The checks of a dictionary's first `k + 1` expectations extend those
      of its first `k` by one. */
  lemma ChecksAgainstStep(items: seq<(string, int)>, counts: map<string, nat>, exact: bool, k: nat)
    requires k < |items|
    ensures ChecksAgainst(items[..k + 1], counts, exact) ==
      ChecksAgainst(items[..k], counts, exact) + [CountCheck(items[k].0, items[k].1, Lookup(counts, items[k].0), exact)]
  {
    assert items[..k + 1][..k] == items[..k];
  }

  /** `score_requirement_fulfillment`: the share of passed checks, 1.0 when
      there are none, and the issues of the failed ones. */
  method ScoreRequirementFulfillment(t: SimplifiedTopology, e: Expected) returns (score: real, issues: seq<string>)
    ensures var cs := RequirementChecks(t, e);
      issues == Issues(cs) && score == Share(PassedCount(cs), |cs|)
  {
    var keys := Names(t.nodes);
    var typeMap := TypeMap(t.nodes);
    var counts := CountTypes(keys, typeMap);
    var passedExact, issuesExact := RunCountChecks(e.nodeTypes, counts, true);
    var passedMin, issuesMin := RunCountChecks(e.minNodeTypes, counts, false);
    ChecksAgainstCounts(e.nodeTypes, counts, keys, typeMap, true);
    ChecksAgainstCounts(e.minNodeTypes, counts, keys, typeMap, false);
    var passedNetworks, issuesNetworks := RunMinimumCheck("Networks", e.minNetworks, |t.networks|);
    var passedZones, issuesZones := RunMinimumCheck("Zones", e.minZones, |t.zones|);
    var passed := passedExact + passedMin + passedNetworks + passedZones;
    issues := issuesExact + issuesMin + issuesNetworks + issuesZones;
    var total := |e.nodeTypes| + |e.minNodeTypes| + (if e.minNetworks.Some? then 1 else 0) + (if e.minZones.Some? then 1 else 0);
    ghost var cs := RequirementChecks(t, e);
    RequirementTotals(t, e);
    assert passed == PassedCount(cs);
    assert issues == Issues(cs);
    RequirementChecksLength(t, e);
    assert total == |cs|;
    score := Share(passed, total);
  }

  /** The passed count and the issues of all requirement checks, run by run. */
  lemma RequirementTotals(t: SimplifiedTopology, e: Expected)
    ensures var keys, typeMap := Names(t.nodes), TypeMap(t.nodes);
      var a, b := CountChecks(e.nodeTypes, keys, typeMap, true), CountChecks(e.minNodeTypes, keys, typeMap, false);
      var c, d := MinimumCheck("Networks", e.minNetworks, |t.networks|), MinimumCheck("Zones", e.minZones, |t.zones|);
      && PassedCount(RequirementChecks(t, e)) == PassedCount(a) + PassedCount(b) + PassedCount(c) + PassedCount(d)
      && Issues(RequirementChecks(t, e)) == Issues(a) + Issues(b) + Issues(c) + Issues(d)
  {
    var keys, typeMap := Names(t.nodes), TypeMap(t.nodes);
    ChecksConcat(CountChecks(e.nodeTypes, keys, typeMap, true), CountChecks(e.minNodeTypes, keys, typeMap, false),
                 MinimumCheck("Networks", e.minNetworks, |t.networks|), MinimumCheck("Zones", e.minZones, |t.zones|));
  }

  /** One optional minimum check: whether it passes, and its issue if not. */
  method RunMinimumCheck(title: string, minimum: Option<int>, actual: nat) returns (passed: nat, issues: seq<string>)
    ensures passed == PassedCount(MinimumCheck(title, minimum, actual))
    ensures issues == Issues(MinimumCheck(title, minimum, actual))
  {
    passed, issues := 0, [];
    if minimum.Some? {
      var c := MinimumCheck(title, minimum, actual)[0];
      CheckSnoc([], c);
      assert [] + [c] == MinimumCheck(title, minimum, actual);
      if actual >= minimum.value {
        passed := 1;
      } else {
        issues := [title + ": expected >= " + IntToString(minimum.value) + ", got " + NatToString(actual)];
      }
    }
  }

  /** Counting and reporting one more check. */
  lemma CheckSnoc(cs: seq<Check>, c: Check)
    ensures PassedCount(cs + [c]) == PassedCount(cs) + (if c.passed then 1 else 0)
    ensures Issues(cs + [c]) == Issues(cs) + (if c.passed then [] else [c.issue])
  {
    assert (cs + [c])[..|cs|] == cs;
  }

  /** Counting and reporting over four runs of checks, one after another. */
  lemma ChecksConcat(a: seq<Check>, b: seq<Check>, c: seq<Check>, d: seq<Check>)
    ensures PassedCount(a + b + c + d) == PassedCount(a) + PassedCount(b) + PassedCount(c) + PassedCount(d)
    ensures Issues(a + b + c + d) == Issues(a) + Issues(b) + Issues(c) + Issues(d)
  {
    ChecksAppend(a, b);
    ChecksAppend(a + b, c);
    ChecksAppend(a + b + c, d);
  }

  lemma {:induction false} ChecksAppend(a: seq<Check>, b: seq<Check>)
    ensures PassedCount(a + b) == PassedCount(a) + PassedCount(b)
    ensures Issues(a + b) == Issues(a) + Issues(b)
    decreases |b|
  {
    if b != [] {
      var n := |b| - 1;
      ChecksAppend(a, b[..n]);
      assert b == b[..n] + [b[n]];
      assert a + b == (a + b[..n]) + [b[n]];
      CheckSnoc(a + b[..n], b[n]);
      CheckSnoc(b[..n], b[n]);
    } else {
      assert a + b == a;
    }
  }

  /** A metadata value as the judge's result dictionary may hold it. */
  datatype JsonValue = JNull | JBool(b: bool) | JNumber(n: int) | JString(s: string) | JList(items: seq<JsonValue>) | JObject(fields: map<string, JsonValue>)

  /** `val is None or val == "" or val == []`; an absent key reads as None. */
  predicate Blank(result: map<string, JsonValue>, field: string)
  {
    field !in result || result[field] == JNull || result[field] == JString("") || result[field] == JList([])
  }

  /** The four fields that must be populated. */
  const MetadataFields: seq<string> := ["overall_feedback", "cost", "thought_process", "input_query"]

  /** The blank fields among `fields`, in order. */
  function MissingFields(result: map<string, JsonValue>, fields: seq<string>): (r: seq<string>)
    ensures |r| <= |fields|
    ensures forall f :: f in r <==> f in fields && Blank(result, f)
  {
    if fields == [] then []
    else
      var f := fields[|fields| - 1];
      MissingFields(result, fields[..|fields| - 1]) + (if Blank(result, f) then [f] else [])
  }

  /** Every field is missing exactly when as many are missing as there are
      fields. */
  lemma {:induction false} MissingAll(result: map<string, JsonValue>, fields: seq<string>)
    ensures |MissingFields(result, fields)| == |fields| <==> forall j :: 0 <= j < |fields| ==> Blank(result, fields[j])
  {
    if fields != [] {
      var p := fields[..|fields| - 1];
      MissingAll(result, p);
      assert forall j :: 0 <= j < |p| ==> p[j] == fields[j];
    }
  }

  /** `score_metadata_completeness`: the blank fields and the share of the
      four that are populated. */
  method ScoreMetadataCompleteness(result: map<string, JsonValue>) returns (score: real, missing: seq<string>)
    ensures missing == MissingFields(result, MetadataFields)
    ensures score == Share(|MetadataFields| - |missing|, |MetadataFields|)
  {
    var fields := MetadataFields;
    missing := [];
    var k := 0;
    while k < |fields|
      invariant k <= |fields|
      invariant missing == MissingFields(result, fields[..k])
    {
      assert fields[..k + 1][..k] == fields[..k];
      var field := fields[k];
      var blank := field !in result || result[field] == JNull || result[field] == JString("") || result[field] == JList([]);
      if blank {
        missing := missing + [field];
      }
      k := k + 1;
    }
    assert fields[..k] == fields;
    score := (|fields| - |missing|) as real / |fields| as real;
  }

  /** A share of populated fields is 1.0 exactly when no field is blank,
      and 0.0 exactly when there are fields and all are blank. */
  lemma PopulatedShare(result: map<string, JsonValue>, fields: seq<string>)
    ensures var missing := MissingFields(result, fields);
      Share(|fields| - |missing|, |fields|) == 1.0 <==> forall f :: f in fields ==> !Blank(result, f)
    ensures var missing := MissingFields(result, fields);
      Share(|fields| - |missing|, |fields|) == 0.0 <==>
        |fields| > 0 && forall j :: 0 <= j < |fields| ==> Blank(result, fields[j])
  {
    MissingAll(result, fields);
    var missing := MissingFields(result, fields);
    if missing != [] {
      assert missing[0] in missing;
    }
  }

  /** The metadata score is 1.0 exactly when no field is blank, and 0.0
      exactly when all four are. */
  lemma MetadataScoreMeaning(result: map<string, JsonValue>)
    ensures var missing := MissingFields(result, MetadataFields);
      Share(4 - |missing|, 4) == 1.0 <==> forall f :: f in MetadataFields ==> !Blank(result, f)
    ensures var missing := MissingFields(result, MetadataFields);
      Share(4 - |missing|, 4) == 0.0 <==> forall j :: 0 <= j < |MetadataFields| ==> Blank(result, MetadataFields[j])
  {
    PopulatedShare(result, MetadataFields);
  }

}
