/** The decomposition graph of a repository plan and its cycle check, Kahn's
    algorithm over a multigraph (contracts.py, class TaskDag). */
module TaskDag {
  import opened Common

  datatype Edge = Edge(fromNode: string, toNode: string)

  datatype Dag = Dag(nodes: seq<string>, edges: seq<Edge>)

  /** The exception a dictionary lookup raises on an endpoint nobody declared. */
  datatype KeyError = KeyError(node: string)

  predicate Declared(d: Dag) {
    forall e | e in d.edges :: e.fromNode in d.nodes && e.toNode in d.nodes
  }

  ghost predicate IsWalk(d: Dag, p: seq<string>) {
    |p| > 0 && forall i | 0 <= i < |p| - 1 :: Edge(p[i], p[i + 1]) in d.edges
  }

  /** Some walk of at least one edge returns to where it began. */
  ghost predicate Cyclic(d: Dag) {
    exists p :: IsWalk(d, p) && |p| >= 2 && p[0] == p[|p| - 1]
  }

  /** Everything that must run before a listed node is listed earlier. */
  ghost predicate PrerequisitesFirst(d: Dag, order: seq<string>) {
    forall i, e | 0 <= i < |order| && e in d.edges && e.toNode == order[i] :: e.fromNode in order[..i]
  }

  /** A linear order of all nodes in which every edge points forward. */
  ghost predicate IsSchedule(d: Dag, order: seq<string>) {
    && Distinct(order)
    && SetOf(order) == SetOf(d.nodes)
    && PrerequisitesFirst(d, order)
  }

  /** How many edges into n start at a node that is not done. */
  ghost function Waiting(edges: seq<Edge>, n: string, done: set<string>): nat {
    if edges == [] then 0 else
      var last := edges[|edges| - 1];
      Waiting(edges[..|edges| - 1], n, done)
      + if last.toNode == n && last.fromNode !in done then 1 else 0
  }

  /** The targets of the edges leaving n, in declaration order and with repeats. */
  ghost function Dependants(edges: seq<Edge>, n: string): seq<string> {
    if edges == [] then [] else
      var last := edges[|edges| - 1];
      Dependants(edges[..|edges| - 1], n) + if last.fromNode == n then [last.toNode] else []
  }

  /** Draining x lowers each count by the number of edges x has into that node. */
  lemma {:induction false} WaitingAfterDrain(edges: seq<Edge>, n: string, done: set<string>, x: string)
    requires x !in done
    ensures Waiting(edges, n, done)
         == Waiting(edges, n, done + {x}) + multiset(Dependants(edges, x))[n]
  {
    if edges != [] {
      WaitingAfterDrain(edges[..|edges| - 1], n, done, x);
    }
  }

  lemma {:induction false} WaitingZero(edges: seq<Edge>, n: string, done: set<string>)
    ensures Waiting(edges, n, done) == 0 <==> forall e | e in edges && e.toNode == n :: e.fromNode in done
  {
    if edges != [] {
      var front, last := edges[..|edges| - 1], edges[|edges| - 1];
      WaitingZero(front, n, done);
      assert edges == front + [last];
    }
  }

  lemma {:induction false} DependantsDeclared(edges: seq<Edge>, n: string)
    ensures forall m | m in Dependants(edges, n) :: exists e :: e in edges && e.toNode == m
  {
    if edges != [] {
      var front, last := edges[..|edges| - 1], edges[|edges| - 1];
      DependantsDeclared(front, n);
      assert edges == front + [last];
      forall m | m in Dependants(edges, n) ensures exists e :: e in edges && e.toNode == m {
        if m !in Dependants(front, n) {
          assert last in edges && last.toNode == m;
        } else {
          var e :| e in front && e.toNode == m;
          assert e in edges;
        }
      }
    }
  }

  // --- What a schedule and a stuck graph each say about cycles ---------------

  /** Along a walk that ends in a prerequisites-first order, positions only go up. */
  lemma {:induction false} WalkStaysBefore(d: Dag, order: seq<string>, p: seq<string>, k: nat)
    requires PrerequisitesFirst(d, order) && IsWalk(d, p)
    requires k < |order| && p[|p| - 1] == order[k]
    ensures |p| >= 2 ==> p[0] in order[..k]
    decreases |p|
  {
    if |p| >= 2 {
      var q := p[..|p| - 1];
      assert Edge(p[|p| - 2], p[|p| - 1]) in d.edges;
      assert Edge(p[|p| - 2], p[|p| - 1]).fromNode in order[..k];
      var k' :| 0 <= k' < k && order[k'] == p[|p| - 2];
      assert IsWalk(d, q) by {
        forall i | 0 <= i < |q| - 1 ensures Edge(q[i], q[i + 1]) in d.edges {
          assert Edge(p[i], p[i + 1]) in d.edges;
        }
      }
      WalkStaysBefore(d, order, q, k');
      if |q| >= 2 {
        assert p[0] in order[..k'];
        assert order[..k'] <= order[..k];
      }
    }
  }

  lemma ScheduleExcludesCycles(d: Dag, order: seq<string>)
    requires Declared(d) && IsSchedule(d, order)
    ensures !Cyclic(d)
  {
    if p :| IsWalk(d, p) && |p| >= 2 && p[0] == p[|p| - 1] {
      assert Edge(p[|p| - 2], p[|p| - 2 + 1]) in d.edges;
      assert p[|p| - 1] in SetOf(order);
      var k :| 0 <= k < |order| && order[k] == p[|p| - 1];
      WalkStaysBefore(d, order, p, k);
      assert false;
    }
  }

  /** Some edge into m starts inside the given set. */
  ghost predicate FedFrom(d: Dag, m: string, stuck: set<string>) {
    exists e :: e in d.edges && e.toNode == m && e.fromNode in stuck
  }

  ghost predicate Stuck(d: Dag, stuck: set<string>) {
    forall m {:trigger FedFrom(d, m, stuck)} | m in stuck :: FedFrom(d, m, stuck)
  }

  /** In a set where everyone has a predecessor, walks of every length exist. */
  lemma {:induction false} LongWalk(d: Dag, stuck: set<string>, n: string, len: nat) returns (p: seq<string>)
    requires Stuck(d, stuck) && n in stuck
    ensures IsWalk(d, p) && |p| == len + 1
    ensures SetOf(p) <= stuck
    ensures p[|p| - 1] == n
    decreases len
  {
    if len == 0 {
      p := [n];
    } else {
      assert FedFrom(d, n, stuck);
      var e :| e in d.edges && e.toNode == n && e.fromNode in stuck;
      var q := LongWalk(d, stuck, e.fromNode, len - 1);
      p := q + [n];
      ExtendWalk(d, q, n);
      assert SetOf(p) == SetOf(q) + {n};
    }
  }

  lemma ExtendWalk(d: Dag, q: seq<string>, n: string)
    requires IsWalk(d, q) && Edge(q[|q| - 1], n) in d.edges
    ensures IsWalk(d, q + [n])
  {
    var p := q + [n];
    forall i | 0 <= i < |p| - 1 ensures Edge(p[i], p[i + 1]) in d.edges {
      if i < |q| - 1 {
        assert p[i] == q[i] && p[i + 1] == q[i + 1];
        assert Edge(q[i], q[i + 1]) in d.edges;
      }
    }
  }

  lemma SubWalk(d: Dag, p: seq<string>, i: nat, j: nat)
    requires IsWalk(d, p) && i <= j < |p|
    ensures IsWalk(d, p[i..j + 1])
  {
    var q := p[i..j + 1];
    forall k | 0 <= k < |q| - 1 ensures Edge(q[k], q[k + 1]) in d.edges {
      assert Edge(p[i + k], p[i + k + 1]) in d.edges;
    }
  }

  lemma StuckMeansCyclic(d: Dag, stuck: set<string>)
    requires stuck != {} && Stuck(d, stuck)
    ensures Cyclic(d)
  {
    var n :| n in stuck;
    var p := LongWalk(d, stuck, n, |stuck|);
    SubsetSize(SetOf(p), stuck);
    DistinctSize(p);
    var i, j :| 0 <= i < j < |p| && p[i] == p[j];
    SubWalk(d, p, i, j);
    var loop := p[i..j + 1];
    assert loop[0] == loop[|loop| - 1];
  }

  /** Over declared endpoints: a schedule exists exactly when there is no cycle.
      The nodes drained by HasCycle are the schedule. */
  lemma SchedulableIffAcyclic(d: Dag)
    requires Declared(d)
    ensures (exists order :: IsSchedule(d, order)) <==> !Cyclic(d)
  {
    if !Cyclic(d) {
      var order := Saturate(d, []);
      var rest := SetOf(d.nodes) - SetOf(order);
      if rest != {} {
        StuckMeansCyclic(d, rest);
      }
      forall n | n in SetOf(d.nodes) ensures n in SetOf(order) {
        assert n !in rest;
      }
      assert SetOf(order) == SetOf(d.nodes);
      assert IsSchedule(d, order);
    }
    if order :| IsSchedule(d, order) {
      ScheduleExcludesCycles(d, order);
    }
  }

  /** Extends a prerequisites-first order until every other node waits for one outside it. */
  lemma {:induction false} Saturate(d: Dag, start: seq<string>) returns (order: seq<string>)
    requires Declared(d)
    requires Distinct(start) && SetOf(start) <= SetOf(d.nodes) && PrerequisitesFirst(d, start)
    ensures Distinct(order) && SetOf(order) <= SetOf(d.nodes) && PrerequisitesFirst(d, order)
    ensures Stuck(d, SetOf(d.nodes) - SetOf(order))
    decreases |SetOf(d.nodes) - SetOf(start)|
  {
    var rest := SetOf(d.nodes) - SetOf(start);
    if m :| m in rest && !FedFrom(d, m, rest) {
      var longer := start + [m];
      assert SetOf(longer) == SetOf(start) + {m};
      assert PrerequisitesFirst(d, longer) by {
        forall i, e | 0 <= i < |longer| && e in d.edges && e.toNode == longer[i]
          ensures e.fromNode in longer[..i]
        {
          if i < |start| {
            assert longer[..i] == start[..i];
          } else {
            assert longer[..i] == start;
            assert e.fromNode !in rest;
          }
        }
      }
      assert SetOf(d.nodes) - SetOf(longer) == rest - {m};
      order := Saturate(d, longer);
    } else {
      order := start;
    }
  }

  // --- The algorithm ----------------------------------------------------------

  /** Kahn's algorithm. An undeclared endpoint is the source's KeyError; a node
      list with duplicates always answers true, because the counters collapse them
      and fewer nodes drain than were declared. */
  method HasCycle(d: Dag) returns (r: Result<bool, KeyError>, ghost order: seq<string>)
    ensures r.Failure? <==> !Declared(d)
    ensures r.Success? ==>
      Distinct(order) && SetOf(order) <= SetOf(d.nodes) && PrerequisitesFirst(d, order)
    ensures r.Success? && Distinct(d.nodes) ==> (r.value <==> Cyclic(d))
    ensures r.Success? && !Distinct(d.nodes) ==> r.value
    ensures r == Success(false) ==> IsSchedule(d, order)
  {
    order := [];
    var tally := CountEdges(d);
    if tally.Failure? {
      return Failure(tally.error), [];
    }
    var remaining, dependants := tally.value.0, tally.value.1;
    var frontier := RootsOf(d.nodes, remaining);
    var drained := 0;
    while frontier != []
      invariant Draining(d, remaining, frontier, order)
      invariant drained == |order|
      decreases |SetOf(d.nodes) - SetOf(order)|
    {
      var node := frontier[|frontier| - 1];
      assert node in SetOf(d.nodes) - SetOf(order);
      ghost var counts, ready, before := remaining, frontier, order;
      drained := drained + 1;
      order := order + [node];
      DrainNode(d, counts, ready, before);
      remaining, frontier := Release(dependants[node], remaining, frontier[..|frontier| - 1]);
      DrainedNode(d, counts, ready, before, remaining, frontier);
    }
    r := Success(drained != |d.nodes|);
    KahnConclusion(d, order);
  }

  /** The state of the draining loop: every node is drained at most once, a node's
      count is the number of edges into it from undrained nodes, and the frontier
      holds exactly the undrained nodes whose count is zero. */
  ghost predicate Draining(d: Dag, remaining: map<string, int>, frontier: seq<string>, order: seq<string>) {
    && remaining.Keys == SetOf(d.nodes)
    && Distinct(frontier) && Distinct(order)
    && SetOf(order) <= SetOf(d.nodes)
    && PrerequisitesFirst(d, order)
    && (forall n | n in remaining :: remaining[n] == Waiting(d.edges, n, SetOf(order)))
    && (forall n :: n in frontier <==> n in remaining && remaining[n] == 0 && n !in order)
    && (forall n | n in order :: remaining[n] == 0)
  }

  /** Before the dependants of a popped node are released. */
  lemma DrainNode(d: Dag, counts: map<string, int>, ready: seq<string>, order: seq<string>)
    requires Declared(d) && Draining(d, counts, ready, order) && ready != []
    ensures
      var node, rest := ready[|ready| - 1], ready[..|ready| - 1];
      && node in counts && node !in order && counts[node] == 0
      && Distinct(rest) && (forall n :: n in rest <==> n in ready && n != node)
      && (forall n | n in Dependants(d.edges, node) :: n in counts)
      && (forall n | n in counts :: counts[n] >= multiset(Dependants(d.edges, node))[n])
  {
    var node, rest := ready[|ready| - 1], ready[..|ready| - 1];
    assert ready == rest + [node];
    DrainStep(d, order, node);
    DependantsDeclared(d.edges, node);
  }

  /** After they are released. */
  lemma DrainedNode(d: Dag, counts: map<string, int>, ready: seq<string>, before: seq<string>,
                    remaining: map<string, int>, frontier: seq<string>)
    requires Declared(d) && Draining(d, counts, ready, before) && ready != []
    requires remaining.Keys == counts.Keys && Distinct(frontier)
    requires forall n | n in counts ::
               remaining[n] == counts[n] - multiset(Dependants(d.edges, ready[|ready| - 1]))[n]
    requires forall n :: n in frontier <==>
               || n in ready[..|ready| - 1]
               || (n in Dependants(d.edges, ready[|ready| - 1]) && n in remaining && remaining[n] == 0)
    ensures Draining(d, remaining, frontier, before + [ready[|ready| - 1]])
    ensures |SetOf(d.nodes) - SetOf(before + [ready[|ready| - 1]])| < |SetOf(d.nodes) - SetOf(before)|
  {
    var node, rest := ready[|ready| - 1], ready[..|ready| - 1];
    var order, released := before + [node], Dependants(d.edges, node);
    DrainNode(d, counts, ready, before);
    DrainStep(d, before, node);
    assert SetOf(d.nodes) - SetOf(order) == (SetOf(d.nodes) - SetOf(before)) - {node};
    forall n | n in order ensures remaining[n] == 0 {
      assert n in before || n == node;
      assert counts[n] == 0 && multiset(released)[n] >= 0;
      assert remaining[n] == Waiting(d.edges, n, SetOf(order));
    }
    forall n ensures n in frontier <==> n in remaining && remaining[n] == 0 && n !in order {
      FrontierAfter(counts, rest, before, node, released, remaining, n);
    }
  }

  lemma FrontierAfter(counts: map<string, int>, rest: seq<string>, before: seq<string>, node: string,
                      released: seq<string>, remaining: map<string, int>, n: string)
    requires remaining.Keys == counts.Keys && node in counts && counts[node] == 0
    requires n in rest <==> n != node && n in counts && counts[n] == 0 && n !in before
    requires n in before ==> n in counts && counts[n] == 0
    requires n in counts ==> counts[n] >= 0
    requires n in counts ==> remaining[n] == counts[n] - multiset(released)[n] >= 0
    requires node in counts ==> remaining[node] == counts[node] - multiset(released)[node] >= 0
    ensures (n in rest || (n in released && n in remaining && remaining[n] == 0))
       <==> (n in remaining && remaining[n] == 0 && n !in before + [node])
  {
    assert n in released <==> multiset(released)[n] > 0;
  }

  /** The two dictionaries after a prefix of the edges. */
  ghost predicate Tallied(nodes: seq<string>, edges: seq<Edge>,
                          remaining: map<string, int>, dependants: map<string, seq<string>>) {
    && remaining.Keys == dependants.Keys == SetOf(nodes)
    && (forall n | n in remaining :: remaining[n] == Waiting(edges, n, {}))
    && (forall n | n in dependants :: dependants[n] == Dependants(edges, n))
  }

  lemma TallyStep(nodes: seq<string>, edges: seq<Edge>, edge: Edge,
                  remaining: map<string, int>, dependants: map<string, seq<string>>)
    requires Tallied(nodes, edges, remaining, dependants)
    requires edge.toNode in remaining && edge.fromNode in dependants
    ensures Tallied(nodes, edges + [edge], remaining[edge.toNode := remaining[edge.toNode] + 1],
                    dependants[edge.fromNode := dependants[edge.fromNode] + [edge.toNode]])
  {
    var longer := edges + [edge];
    assert longer[..|longer| - 1] == edges;
    forall n ensures Waiting(longer, n, {}) == Waiting(edges, n, {}) + if edge.toNode == n then 1 else 0 {
    }
    forall n ensures Dependants(longer, n)
        == Dependants(edges, n) + if edge.fromNode == n then [edge.toNode] else [] {
    }
  }

  /** Fills the two dictionaries, one edge at a time: how many edges each node waits
      for, and which nodes wait for it. */
  method CountEdges(d: Dag) returns (r: Result<(map<string, int>, map<string, seq<string>>), KeyError>)
    ensures r.Failure? <==> !Declared(d)
    ensures r.Success? ==> Tallied(d.nodes, d.edges, r.value.0, r.value.1)
  {
    var remaining: map<string, int> := map n | n in d.nodes :: 0;
    var dependants: map<string, seq<string>> := map n | n in d.nodes :: [];
    for i := 0 to |d.edges|
      invariant Tallied(d.nodes, d.edges[..i], remaining, dependants)
      invariant Declared(d.(edges := d.edges[..i]))
    {
      var edge := d.edges[i];
      if edge.toNode !in remaining {
        return Failure(KeyError(edge.toNode));
      }
      if edge.fromNode !in dependants {
        return Failure(KeyError(edge.fromNode));
      }
      assert d.edges[..i + 1] == d.edges[..i] + [edge];
      TallyStep(d.nodes, d.edges[..i], edge, remaining, dependants);
      remaining := remaining[edge.toNode := remaining[edge.toNode] + 1];
      dependants := dependants[edge.fromNode := dependants[edge.fromNode] + [edge.toNode]];
    }
    assert d.edges[..|d.edges|] == d.edges;
    r := Success((remaining, dependants));
  }

  /** The keys of the counter dictionary whose count is zero, in declaration order. */
  method RootsOf(nodes: seq<string>, remaining: map<string, int>) returns (roots: seq<string>)
    requires remaining.Keys == SetOf(nodes)
    ensures Distinct(roots)
    ensures forall n :: n in roots <==> n in nodes && remaining[n] == 0
  {
    roots := [];
    for i := 0 to |nodes|
      invariant Distinct(roots)
      invariant forall n :: n in roots <==> n in nodes[..i] && remaining[n] == 0
    {
      if nodes[i] !in nodes[..i] && remaining[nodes[i]] == 0 {
        roots := roots + [nodes[i]];
      }
    }
    assert nodes[..|nodes|] == nodes;
  }

  /** Lowers the count of each dependant in turn and queues those that reach zero. */
  method Release(dependants: seq<string>, counts: map<string, int>, ready: seq<string>)
    returns (remaining: map<string, int>, frontier: seq<string>)
    requires forall n | n in dependants :: n in counts
    requires forall n | n in counts :: counts[n] >= multiset(dependants)[n]
    requires Distinct(ready) && forall n | n in ready :: n in counts && counts[n] == 0
    ensures remaining.Keys == counts.Keys
    ensures forall n | n in counts :: remaining[n] == counts[n] - multiset(dependants)[n]
    ensures Distinct(frontier)
    ensures forall n :: n in frontier <==> n in ready || (n in dependants && remaining[n] == 0)
  {
    remaining, frontier := counts, ready;
    for j := 0 to |dependants|
      invariant remaining.Keys == counts.Keys
      invariant forall n | n in counts :: remaining[n] == counts[n] - multiset(dependants[..j])[n]
      invariant Distinct(frontier)
      invariant forall n :: n in frontier <==> n in ready || (n in dependants[..j] && remaining[n] == 0)
    {
      var dependant := dependants[j];
      assert dependants[..j + 1] == dependants[..j] + [dependant];
      MultisetPrefix(dependants, j);
      remaining := remaining[dependant := remaining[dependant] - 1];
      if remaining[dependant] == 0 {
        frontier := frontier + [dependant];
      }
    }
    assert dependants[..|dependants|] == dependants;
  }

  lemma MultisetPrefix(s: seq<string>, j: nat)
    requires j < |s|
    ensures forall n :: multiset(s[..j + 1])[n] <= multiset(s)[n]
  {
    assert s == s[..j + 1] + s[j + 1..];
  }

  /** What moving one ready node into the drained order does to the bookkeeping. */
  lemma DrainStep(d: Dag, before: seq<string>, node: string)
    requires Distinct(before) && node !in before && PrerequisitesFirst(d, before)
    requires Waiting(d.edges, node, SetOf(before)) == 0
    ensures Distinct(before + [node]) && PrerequisitesFirst(d, before + [node])
    ensures SetOf(before + [node]) == SetOf(before) + {node}
    ensures forall n :: Waiting(d.edges, n, SetOf(before))
              == Waiting(d.edges, n, SetOf(before + [node])) + multiset(Dependants(d.edges, node))[n]
  {
    var order := before + [node];
    assert SetOf(order) == SetOf(before) + {node};
    WaitingZero(d.edges, node, SetOf(before));
    forall i, e | 0 <= i < |order| && e in d.edges && e.toNode == order[i]
      ensures e.fromNode in order[..i]
    {
      if i < |before| {
        assert order[..i] == before[..i];
      } else {
        assert order[..i] == before;
      }
    }
    forall n ensures Waiting(d.edges, n, SetOf(before))
        == Waiting(d.edges, n, SetOf(order)) + multiset(Dependants(d.edges, node))[n]
    {
      WaitingAfterDrain(d.edges, n, SetOf(before), node);
    }
  }

  /** When nothing is ready any more, the number of drained nodes decides. */
  lemma KahnConclusion(d: Dag, order: seq<string>)
    requires Declared(d)
    requires Distinct(order) && SetOf(order) <= SetOf(d.nodes) && PrerequisitesFirst(d, order)
    requires forall n | n in d.nodes :: Waiting(d.edges, n, SetOf(order)) == 0 <==> n in order
    ensures Distinct(d.nodes) ==> (|order| != |d.nodes| <==> Cyclic(d))
    ensures !Distinct(d.nodes) ==> |order| != |d.nodes|
    ensures |order| == |d.nodes| ==> IsSchedule(d, order)
  {
    DistinctSize(order);
    DistinctSize(d.nodes);
    SubsetSize(SetOf(order), SetOf(d.nodes));
    if |order| == |d.nodes| {
      ScheduleExcludesCycles(d, order);
    } else if Distinct(d.nodes) {
      var stuck := SetOf(d.nodes) - SetOf(order);
      assert stuck + SetOf(order) == SetOf(d.nodes);
      assert |stuck + SetOf(order)| == |stuck| + |SetOf(order)|;
      forall m | m in stuck ensures FedFrom(d, m, stuck) {
        WaitingZero(d.edges, m, SetOf(order));
        var e :| e in d.edges && e.toNode == m && e.fromNode !in SetOf(order);
        assert e.fromNode in stuck;
      }
      StuckMeansCyclic(d, stuck);
    }
  }
}
