/** The constructor check of a plan decision: correspondence, endpoints, acyclicity
    (contracts.py, RepositoryPlanDecision). */
module PlanCheck {
  import opened Common
  import opened LeaderRecords
  import opened TaskDag
  import Sorting

  datatype PlanError = DuplicateNode | NotOneToOne | UndeclaredNode(edge: Edge) | CyclicDag

  function NodeIds(tasks: seq<PlannedWorkerTask>): seq<string> {
    seq(|tasks|, i requires 0 <= i < |tasks| => tasks[i].nodeId)
  }

  ghost predicate Before(order: seq<PlannedWorkerTask>, e: Edge) {
    exists i, j :: 0 <= i < j < |order| && order[i].nodeId == e.fromNode && order[j].nodeId == e.toNode
  }

  /** All worker tasks in a row, each prerequisite before its dependant. */
  ghost predicate RunsInOrder(plan: PlanDecision, order: seq<PlannedWorkerTask>) {
    && multiset(order) == multiset(plan.workerTasks)
    && forall e | e in plan.taskDag.edges :: Before(order, e)
  }

  /** One task per node, one node per task, and the work can be carried out in some order. */
  ghost predicate Executable(plan: PlanDecision) {
    && Distinct(plan.taskDag.nodes)
    && multiset(NodeIds(plan.workerTasks)) == multiset(plan.taskDag.nodes)
    && exists order :: RunsInOrder(plan, order)
  }

  /** The check order leaves the cycle check no undeclared key to meet, so it answers. */
  method CheckPlan(plan: PlanDecision) returns (error: Option<PlanError>)
    ensures error.None? <==> Executable(plan)
    ensures error == Some(DuplicateNode) <==> !Distinct(plan.taskDag.nodes)
    ensures error == Some(NotOneToOne) <==>
      && Distinct(plan.taskDag.nodes)
      && multiset(NodeIds(plan.workerTasks)) != multiset(plan.taskDag.nodes)
    ensures error.Some? && error.value.UndeclaredNode? ==>
      && error.value.edge in plan.taskDag.edges
      && (error.value.edge.fromNode !in plan.taskDag.nodes || error.value.edge.toNode !in plan.taskDag.nodes)
    ensures error == Some(CyclicDag) ==> Declared(plan.taskDag) && Cyclic(plan.taskDag)
  {
    var nodes := plan.taskDag.nodes;
    DistinctSize(nodes);
    if |SetOf(nodes)| != |nodes| {
      return Some(DuplicateNode);
    }
    Sorting.SortedEqual(NodeIds(plan.workerTasks), nodes);
    if Sorting.Sorted(NodeIds(plan.workerTasks)) != Sorting.Sorted(nodes) {
      return Some(NotOneToOne);
    }
    ExecutableIff(plan);
    var undeclared := FirstUndeclared(plan.taskDag);
    if undeclared.Some? {
      return Some(UndeclaredNode(undeclared.value));
    }
    var verdict, order := HasCycle(plan.taskDag);
    error := if verdict.value then Some(CyclicDag) else None;
  }

  method FirstUndeclared(d: Dag) returns (found: Option<Edge>)
    ensures found.None? <==> Declared(d)
    ensures found.Some? ==>
      && found.value in d.edges
      && (found.value.fromNode !in d.nodes || found.value.toNode !in d.nodes)
  {
    for i := 0 to |d.edges|
      invariant Declared(d.(edges := d.edges[..i]))
    {
      var edge := d.edges[i];
      if edge.fromNode !in d.nodes || edge.toNode !in d.nodes {
        return Some(edge);
      }
    }
    found := None;
  }

  /** Under the first two checks, an execution order exists exactly when every edge
      endpoint is declared and no edge chain closes. */
  lemma ExecutableIff(plan: PlanDecision)
    requires Distinct(plan.taskDag.nodes)
    requires multiset(NodeIds(plan.workerTasks)) == multiset(plan.taskDag.nodes)
    ensures Executable(plan) <==> Declared(plan.taskDag) && !Cyclic(plan.taskDag)
  {
    if Declared(plan.taskDag) && !Cyclic(plan.taskDag) {
      SchedulableIffAcyclic(plan.taskDag);
      var nodes :| IsSchedule(plan.taskDag, nodes);
      ScheduleRuns(plan, nodes);
    }
    if Executable(plan) {
      var order :| RunsInOrder(plan, order);
      RunIsSchedule(plan, order);
      ScheduleExcludesCycles(plan.taskDag, NodeIds(order));
    }
  }

  lemma ScheduleRuns(plan: PlanDecision, nodes: seq<string>)
    requires Declared(plan.taskDag) && IsSchedule(plan.taskDag, nodes)
    requires Distinct(plan.taskDag.nodes)
    requires multiset(NodeIds(plan.workerTasks)) == multiset(plan.taskDag.nodes)
    ensures exists order :: RunsInOrder(plan, order)
  {
    var tasks := plan.workerTasks;
    DistinctByMultiset(plan.taskDag.nodes, NodeIds(tasks));
    forall n ensures n in nodes <==> n in NodeIds(tasks) {
      assert n in nodes <==> n in SetOf(nodes);
      assert n in plan.taskDag.nodes <==> n in SetOf(plan.taskDag.nodes);
      assert n in plan.taskDag.nodes <==> n in multiset(plan.taskDag.nodes);
    }
    var order := TaskRow(tasks, nodes);
    TaskRowIsPermutation(tasks, nodes, order);
    forall e | e in plan.taskDag.edges ensures Before(order, e) {
      ScheduledBefore(plan.taskDag, nodes, order, e);
    }
    assert RunsInOrder(plan, order);
  }

  lemma ScheduledBefore(d: Dag, nodes: seq<string>, order: seq<PlannedWorkerTask>, e: Edge)
    requires Declared(d) && IsSchedule(d, nodes) && e in d.edges
    requires |order| == |nodes| && forall k | 0 <= k < |nodes| :: order[k].nodeId == nodes[k]
    ensures Before(order, e)
  {
    assert e.toNode in SetOf(nodes);
    var j :| 0 <= j < |nodes| && nodes[j] == e.toNode;
    var i :| 0 <= i < j && nodes[i] == e.fromNode;
    assert order[i].nodeId == e.fromNode && order[j].nodeId == e.toNode;
  }

  lemma TaskRow(tasks: seq<PlannedWorkerTask>, nodes: seq<string>) returns (order: seq<PlannedWorkerTask>)
    requires forall n | n in nodes :: n in NodeIds(tasks)
    ensures |order| == |nodes|
    ensures forall k | 0 <= k < |nodes| :: order[k] in tasks && order[k].nodeId == nodes[k]
  {
    order := [];
    for k := 0 to |nodes|
      invariant |order| == k
      invariant forall l | 0 <= l < k :: order[l] in tasks && order[l].nodeId == nodes[l]
    {
      assert nodes[k] in nodes;
      var i :| 0 <= i < |NodeIds(tasks)| && NodeIds(tasks)[i] == nodes[k];
      order := order + [tasks[i]];
    }
  }

  lemma TaskRowIsPermutation(tasks: seq<PlannedWorkerTask>, nodes: seq<string>, order: seq<PlannedWorkerTask>)
    requires Distinct(nodes) && Distinct(NodeIds(tasks))
    requires forall n :: n in nodes <==> n in NodeIds(tasks)
    requires |order| == |nodes|
    requires forall k | 0 <= k < |nodes| :: order[k] in tasks && order[k].nodeId == nodes[k]
    ensures multiset(order) == multiset(tasks)
  {
    var ids := NodeIds(tasks);
    assert Distinct(tasks) by {
      forall i, j | 0 <= i < j < |tasks| ensures tasks[i] != tasks[j] {
        assert ids[i] != ids[j];
      }
    }
    assert Distinct(order);
    forall t | t in tasks ensures t in order {
      var i :| 0 <= i < |tasks| && tasks[i] == t;
      assert ids[i] in ids;
      var k :| 0 <= k < |nodes| && nodes[k] == ids[i];
      var j :| 0 <= j < |tasks| && tasks[j] == order[k];
      assert ids[j] == ids[i];
    }
    SameElementsSameMultiset(order, tasks);
  }

  ghost predicate Placed(ids: seq<string>, e: Edge) {
    && e.fromNode in ids && e.toNode in ids
    && forall k | 0 <= k < |ids| && ids[k] == e.toNode :: e.fromNode in ids[..k]
  }

  /** Reordering tasks whose node ids are distinct keeps them distinct and keeps their set. */
  lemma PermutedIds(tasks: seq<PlannedWorkerTask>, order: seq<PlannedWorkerTask>)
    requires multiset(order) == multiset(tasks) && Distinct(NodeIds(tasks))
    ensures Distinct(NodeIds(order))
    ensures forall n :: n in NodeIds(order) <==> n in NodeIds(tasks)
  {
    assert Distinct(tasks) by {
      forall i, j | 0 <= i < j < |tasks| ensures tasks[i] != tasks[j] {
        assert NodeIds(tasks)[i] != NodeIds(tasks)[j];
      }
    }
    DistinctByMultiset(tasks, order);
    forall t ensures t in order <==> t in tasks {
      assert t in order <==> t in multiset(order);
      assert t in tasks <==> t in multiset(tasks);
    }
    forall i, j | 0 <= i < j < |order| ensures NodeIds(order)[i] != NodeIds(order)[j] {
      assert order[i] in tasks && order[j] in tasks && order[i] != order[j];
      var k :| 0 <= k < |tasks| && tasks[k] == order[i];
      var l :| 0 <= l < |tasks| && tasks[l] == order[j];
      assert NodeIds(tasks)[k] != NodeIds(tasks)[l];
    }
    forall n ensures n in NodeIds(order) <==> n in NodeIds(tasks) {
      if n in NodeIds(order) {
        var i :| 0 <= i < |order| && order[i].nodeId == n;
        assert order[i] in order;
        var k :| 0 <= k < |tasks| && tasks[k] == order[i];
        assert NodeIds(tasks)[k] == n;
      }
      if n in NodeIds(tasks) {
        var k :| 0 <= k < |tasks| && tasks[k].nodeId == n;
        assert tasks[k] in tasks;
        var i :| 0 <= i < |order| && order[i] == tasks[k];
        assert NodeIds(order)[i] == n;
      }
    }
  }

  lemma RunIsSchedule(plan: PlanDecision, order: seq<PlannedWorkerTask>)
    requires Distinct(plan.taskDag.nodes)
    requires multiset(NodeIds(plan.workerTasks)) == multiset(plan.taskDag.nodes)
    requires RunsInOrder(plan, order)
    ensures Declared(plan.taskDag) && IsSchedule(plan.taskDag, NodeIds(order))
  {
    var tasks, ids := plan.workerTasks, NodeIds(order);
    DistinctByMultiset(plan.taskDag.nodes, NodeIds(tasks));
    PermutedIds(tasks, order);
    forall n ensures n in ids <==> n in plan.taskDag.nodes {
      assert n in NodeIds(tasks) <==> n in multiset(NodeIds(tasks));
      assert n in plan.taskDag.nodes <==> n in multiset(plan.taskDag.nodes);
    }
    assert SetOf(ids) == SetOf(plan.taskDag.nodes);
    forall e | e in plan.taskDag.edges ensures Placed(ids, e) {
      assert Before(order, e);
      var i, j :| 0 <= i < j < |order| && order[i].nodeId == e.fromNode && order[j].nodeId == e.toNode;
      assert ids[i] == e.fromNode && ids[j] == e.toNode;
      forall k | 0 <= k < |ids| && ids[k] == e.toNode ensures e.fromNode in ids[..k] {
        assert k == j;
        assert ids[..k][i] == e.fromNode;
      }
    }
  }

  // --- Multisets of sequences -------------------------------------------------

  lemma {:induction false} DistinctCounts<T>(s: seq<T>)
    ensures Distinct(s) <==> forall x :: multiset(s)[x] <= 1
  {
    if s != [] {
      var front, last := s[..|s| - 1], s[|s| - 1];
      DistinctCounts(front);
      assert s == front + [last];
      if Distinct(s) {
        assert Distinct(front);
        assert last !in front;
        assert last !in multiset(front);
      } else {
        var i, j :| 0 <= i < j < |s| && s[i] == s[j];
        if j < |front| {
          assert front[i] == front[j];
          var x :| multiset(front)[x] > 1;
          assert multiset(s)[x] > 1;
        } else {
          assert last in front;
          assert last in multiset(front);
          assert multiset(s)[last] > 1;
        }
      }
    }
  }

  lemma DistinctByMultiset<T>(a: seq<T>, b: seq<T>)
    requires multiset(a) == multiset(b) && Distinct(a)
    ensures Distinct(b)
  {
    DistinctCounts(a);
    DistinctCounts(b);
  }

  lemma {:induction false} DistinctCount<T>(s: seq<T>, x: T)
    requires Distinct(s)
    ensures multiset(s)[x] == if x in s then 1 else 0
  {
    if s != [] {
      var front, last := s[..|s| - 1], s[|s| - 1];
      DistinctCount(front, x);
      assert s == front + [last];
      assert last !in front;
    }
  }

  lemma SameElementsSameMultiset<T>(a: seq<T>, b: seq<T>)
    requires Distinct(a) && Distinct(b) && forall x :: x in a <==> x in b
    ensures multiset(a) == multiset(b)
  {
    forall x ensures multiset(a)[x] == multiset(b)[x] {
      DistinctCount(a, x);
      DistinctCount(b, x);
    }
  }
}
