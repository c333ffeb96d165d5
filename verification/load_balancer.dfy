/**
 * The in-memory load balancer (server/utils/loadBalancer.js): a registry
 * `Map` from node id to `Node`, kept in the Map's insertion order, and a
 * FIFO queue of tasks no node could take.
 *
 * Selection is specified on the sequence of node snapshots in Map order
 * (`Infos()`): `FindBestIndex` is the pure heart of `findBestNode`, and the
 * class methods are specified by it.
 */
module Balancer {
  import opened Wrappers
  import opened NodeRegistry

  /**
   * Node `a` is at most as loaded as node `b`: activeTasks/maxTasks compared
   * by cross-multiplication, exact for the positive capacities of eligible
   * nodes.
   */
  predicate LoadAtMost(a: Stats, b: Stats) {
    a.activeTasks * b.maxTasks <= b.activeTasks * a.maxTasks
  }

  lemma LoadAtMostTransitive(a: Stats, b: Stats, c: Stats)
    requires a.maxTasks >= 1 && b.maxTasks >= 1 && c.maxTasks >= 1
    requires LoadAtMost(a, b) && LoadAtMost(b, c)
    ensures LoadAtMost(a, c)
  {
    var x1, m1 := a.activeTasks, a.maxTasks;
    var x2, m2 := b.activeTasks, b.maxTasks;
    var x3, m3 := c.activeTasks, c.maxTasks;
    assert x1 * m2 * m3 <= x2 * m1 * m3 by {
      MulLeftMono(x1 * m2, x2 * m1, m3);
    }
    assert x2 * m3 * m1 <= x3 * m2 * m1 by {
      MulLeftMono(x2 * m3, x3 * m2, m1);
    }
    assert (x1 * m3) * m2 <= (x3 * m1) * m2;
    MulCancel(x1 * m3, x3 * m1, m2);
  }

  lemma MulLeftMono(x: int, y: int, k: nat)
    requires x <= y
    ensures x * k <= y * k
  {
  }

  lemma MulCancel(x: int, y: int, k: int)
    requires k >= 1
    ensures x * k <= y * k ==> x <= y
  {
    if x > y {
      MulPositive(x - y, k);
      assert x * k - y * k == (x - y) * k;
    }
  }

  lemma {:induction false} MulPositive(d: int, k: int)
    requires d >= 1 && k >= 1
    ensures d * k >= 1
  {
    if k > 1 {
      MulPositive(d, k - 1);
      assert d * k == d * (k - 1) + d;
    }
  }

  /** canHandleTask(taskType) holds of the node. */
  predicate Eligible(n: NodeInfo, taskType: string) {
    CanHandleTask(n, taskType) == Ok(true)
  }

  /**
   * Position `b` is what `findBestNode` picks: an eligible node of minimal
   * load, and the first such in Map order (the sort is stable, so among
   * equally loaded nodes the earliest registered stays in front).
   */
  ghost predicate IsBest(infos: seq<NodeInfo>, taskType: string, b: int) {
    && 0 <= b < |infos|
    && Eligible(infos[b], taskType)
    && (forall j :: 0 <= j < |infos| && Eligible(infos[j], taskType) ==>
          LoadAtMost(infos[b].stats, infos[j].stats))
    && (forall j :: 0 <= j < b && Eligible(infos[j], taskType) ==>
          !LoadAtMost(infos[j].stats, infos[b].stats))
  }

  /** At most one position satisfies IsBest: the choice is determined. */
  lemma BestIsUnique(infos: seq<NodeInfo>, taskType: string, b1: int, b2: int)
    requires IsBest(infos, taskType, b1) && IsBest(infos, taskType, b2)
    ensures b1 == b2
  {
  }

  /** The head of the filtered, stably sorted sequence, if there is one. */
  function FirstLeastLoaded(infos: seq<NodeInfo>, taskType: string): (r: Option<nat>)
    ensures r.None? <==> forall j :: 0 <= j < |infos| ==> !Eligible(infos[j], taskType)
    ensures r.Some? ==> IsBest(infos, taskType, r.value)
  {
    if infos == [] then None
    else
      var rest := FirstLeastLoaded(infos[1..], taskType);
      assert forall j :: 1 <= j < |infos| ==> infos[j] == infos[1..][j - 1];
      if !Eligible(infos[0], taskType) then
        if rest.None? then None else Some(rest.value + 1)
      else if rest.None? then Some(0)
      else if LoadAtMost(infos[0].stats, infos[rest.value + 1].stats) then
        var b := rest.value + 1;
        assert forall j :: 0 <= j < |infos| && Eligible(infos[j], taskType) ==>
            LoadAtMost(infos[0].stats, infos[j].stats) by {
          forall j | 0 <= j < |infos| && Eligible(infos[j], taskType)
            ensures LoadAtMost(infos[0].stats, infos[j].stats)
          {
            if j > 0 {
              LoadAtMostTransitive(infos[0].stats, infos[b].stats, infos[j].stats);
            }
          }
        }
        Some(0)
      else
        Some(rest.value + 1)
  }

  /**
   * `findBestNode(taskType)` on the nodes in Map order, as the index of the
   * chosen node. `filter` calls canHandleTask on every node before anything
   * is sorted, so one node whose capabilities lack `supportedTasks` (while
   * online and below capacity) makes the whole call throw.
   */
  function FindBestIndex(infos: seq<NodeInfo>, taskType: string): (r: Result<Option<nat>>)
    ensures r.Error? <==> exists j :: 0 <= j < |infos| && CanHandleTask(infos[j], taskType).Error?
    ensures r == Ok(None) <==> forall j :: 0 <= j < |infos| ==> CanHandleTask(infos[j], taskType) == Ok(false)
    ensures r.Ok? && r.value.Some? ==> IsBest(infos, taskType, r.value.value)
  {
    if exists j :: 0 <= j < |infos| && CanHandleTask(infos[j], taskType).Error? then
      Error(TypeErrorMessage)
    else
      Ok(FirstLeastLoaded(infos, taskType))
  }

  /** An offline or overloaded node, or one at capacity, is never chosen. */
  lemma BestIsOnlineWithRoom(infos: seq<NodeInfo>, taskType: string)
    requires FindBestIndex(infos, taskType).Ok? && FindBestIndex(infos, taskType).value.Some?
    ensures var n := infos[FindBestIndex(infos, taskType).value.value];
      n.status == Online && n.stats.activeTasks < n.stats.maxTasks
      && taskType in n.capabilities.supportedTasks.value
  {
  }

  /**
   * Of two eligible nodes with the same capacity, the one with fewer active
   * tasks is preferred whatever their order.
   */
  lemma {:induction false} PrefersLessLoaded(infos: seq<NodeInfo>, taskType: string, i: int, j: int)
    requires 0 <= i < |infos| && 0 <= j < |infos|
    requires Eligible(infos[i], taskType) && Eligible(infos[j], taskType)
    requires infos[i].stats.maxTasks == infos[j].stats.maxTasks
    requires infos[i].stats.activeTasks < infos[j].stats.activeTasks
    ensures FindBestIndex(infos, taskType).Ok? ==> FindBestIndex(infos, taskType) != Ok(Some(j))
  {
    var r := FindBestIndex(infos, taskType);
    if r.Ok? && r == Ok(Some(j)) {
      assert LoadAtMost(infos[j].stats, infos[i].stats);
      var m := infos[i].stats.maxTasks;
      assert infos[j].stats.activeTasks * m <= infos[i].stats.activeTasks * m;
      MulCancel(infos[j].stats.activeTasks, infos[i].stats.activeTasks, m);
      assert false;
    }
  }

  /** A node registered with an array of capabilities (no `supportedTasks`),
      while online with room, makes selection throw for every task type. */
  lemma ArrayCapabilitiesBreakSelection(infos: seq<NodeInfo>, k: int, taskType: string)
    requires 0 <= k < |infos|
    requires infos[k].capabilities.supportedTasks.None?
    requires infos[k].status == Online && infos[k].stats.activeTasks < infos[k].stats.maxTasks
    ensures FindBestIndex(infos, taskType).Error?
  {
    assert CanHandleTask(infos[k], taskType).Error?;
  }

  /** A node's entry in `getSystemStats().nodes`. */
  datatype NodeSummary = NodeSummary(id: string, nodeType: string, status: Status, address: string,
                                     stats: Stats, lastHeartbeat: int)

  datatype SystemStats = SystemStats(totalNodes: nat, onlineNodes: nat, offlineNodes: nat,
                                     totalTasks: nat, queuedTasks: nat, nodes: seq<NodeSummary>)

  function CountWithStatus(infos: seq<NodeInfo>, s: Status): nat {
    if infos == [] then 0
    else (if infos[0].status == s then 1 else 0) + CountWithStatus(infos[1..], s)
  }

  /** The sum of activeTasks over the nodes (`reduce`). */
  function SumActive(infos: seq<NodeInfo>): nat {
    if infos == [] then 0 else infos[0].stats.activeTasks + SumActive(infos[1..])
  }

  lemma {:induction false} OnlineOfflineBounded(infos: seq<NodeInfo>)
    ensures CountWithStatus(infos, Online) + CountWithStatus(infos, Offline) <= |infos|
  {
    if infos != [] {
      OnlineOfflineBounded(infos[1..]);
    }
  }

  lemma {:induction false} SumActiveZero(infos: seq<NodeInfo>)
    ensures SumActive(infos) == 0 <==> forall j :: 0 <= j < |infos| ==> infos[j].stats.activeTasks == 0
  {
    if infos != [] {
      SumActiveZero(infos[1..]);
      assert forall j :: 1 <= j < |infos| ==> infos[j] == infos[1..][j - 1];
    }
  }

  function Summary(n: NodeInfo): NodeSummary {
    NodeSummary(n.id, n.nodeType, n.status, n.address, n.stats, n.lastHeartbeat)
  }

  /** `getSystemStats()` on the nodes in Map order and the queue. Status is
      read as stored: nothing is recomputed here. */
  function SystemStatsOf(infos: seq<NodeInfo>, queue: seq<Task>): (r: SystemStats)
    ensures r.totalNodes == |infos| == |r.nodes|
    ensures r.onlineNodes == CountWithStatus(infos, Online) && r.offlineNodes == CountWithStatus(infos, Offline)
    ensures r.onlineNodes + r.offlineNodes <= r.totalNodes
    ensures r.totalTasks == SumActive(infos)
    ensures r.totalTasks == 0 <==> forall j :: 0 <= j < |infos| ==> infos[j].stats.activeTasks == 0
    ensures r.queuedTasks == |queue|
    ensures forall j :: 0 <= j < |infos| ==> r.nodes[j] == Summary(infos[j])
  {
    OnlineOfflineBounded(infos);
    SumActiveZero(infos);
    SystemStats(|infos|, CountWithStatus(infos, Online), CountWithStatus(infos, Offline),
                SumActive(infos), |queue|,
                seq(|infos|, j requires 0 <= j < |infos| => Summary(infos[j])))
  }

  lemma {:induction false} SumActiveAssign(infos: seq<NodeInfo>, i: nat, task: Task, now: int)
    requires i < |infos|
    ensures SumActive(infos[i := AfterAssign(infos[i], task, now)]) == SumActive(infos) + 1
  {
    var updated := infos[i := AfterAssign(infos[i], task, now)];
    if i == 0 {
      assert updated[1..] == infos[1..];
    } else {
      assert updated[1..] == infos[1..][i - 1 := AfterAssign(infos[i], task, now)];
      SumActiveAssign(infos[1..], i - 1, task, now);
    }
  }

  /**
   * What the dashboard sees after a distribution: an assigned task adds one
   * to totalTasks and leaves queuedTasks alone; a queued one adds one to
   * queuedTasks and leaves totalTasks alone.
   */
  lemma DistributionShowsInStats(infos: seq<NodeInfo>, queue: seq<Task>, task: Task, now: int)
    ensures var before := SystemStatsOf(infos, queue);
      match FindBestIndex(infos, task.taskType)
      case Ok(Some(i)) =>
        var after := SystemStatsOf(infos[i := AfterAssign(infos[i], task, now)], queue);
        after.totalTasks == before.totalTasks + 1 && after.queuedTasks == before.queuedTasks
      case Ok(None) =>
        var after := SystemStatsOf(infos, queue + [task]);
        after.totalTasks == before.totalTasks && after.queuedTasks == before.queuedTasks + 1
      case Error(_) => true
  {
    match FindBestIndex(infos, task.taskType)
    case Ok(Some(i)) =>
      SumActiveAssign(infos, i, task, now);
    case Ok(None) =>
    case Error(_) =>
  }

  /** The result of a successful `distributeTask`. */
  datatype Assignment = Assignment(node: Node, task: Task)

  function Without(ids: seq<string>, id: string): (r: seq<string>)
    ensures forall k :: k in r <==> k in ids && k != id
    ensures |r| <= |ids|
  {
    if ids == [] then []
    else if ids[0] == id then Without(ids[1..], id)
    else [ids[0]] + Without(ids[1..], id)
  }

  predicate Distinct(ids: seq<string>) {
    forall i, j :: 0 <= i < j < |ids| ==> ids[i] != ids[j]
  }

  lemma {:induction false} WithoutKeepsDistinct(ids: seq<string>, id: string)
    requires Distinct(ids)
    ensures Distinct(Without(ids, id))
  {
    if ids != [] {
      assert Distinct(ids[1..]) by {
        forall i, j | 0 <= i < j < |ids[1..]| ensures ids[1..][i] != ids[1..][j] {
          assert ids[1..][i] == ids[i + 1] && ids[1..][j] == ids[j + 1];
        }
      }
      WithoutKeepsDistinct(ids[1..], id);
      var rest := Without(ids[1..], id);
      if ids[0] != id {
        assert ids[0] !in ids[1..];
        assert ids[0] !in rest;
        var r := [ids[0]] + rest;
        forall i, j | 0 <= i < j < |r| ensures r[i] != r[j] {
          if i == 0 {
            assert r[j] == rest[j - 1] && rest[j - 1] in rest;
          } else {
            assert r[i] == rest[i - 1] && r[j] == rest[j - 1];
          }
        }
        assert Without(ids, id) == r;
      }
    }
  }

  class LoadBalancer {
    var nodes: map<string, Node>
    /** the Map's iteration order: ids in order of first insertion */
    var order: seq<string>
    var taskQueue: seq<Task>

    ghost predicate Valid()
      reads this
    {
      && (forall k :: k in nodes <==> k in order)
      && Distinct(order)
      && (forall k :: k in nodes ==> nodes[k].id == k)
    }

    function InfosOf(ids: seq<string>): (r: seq<NodeInfo>)
      reads this, nodes.Values
      requires forall k :: k in ids ==> k in nodes
      ensures |r| == |ids|
      ensures forall i :: 0 <= i < |ids| ==> r[i] == nodes[ids[i]].Info()
    {
      if ids == [] then [] else [nodes[ids[0]].Info()] + InfosOf(ids[1..])
    }

    /** The registered nodes' states in Map order (`Array.from(this.nodes.values())`). */
    function Infos(): (r: seq<NodeInfo>)
      reads this, nodes.Values
      requires Valid()
      ensures |r| == |order|
      ensures forall i :: 0 <= i < |order| ==> r[i] == nodes[order[i]].Info()
    {
      InfosOf(order)
    }

    constructor ()
      ensures Valid() && nodes == map[] && order == [] && taskQueue == []
    {
      nodes := map[];
      order := [];
      taskQueue := [];
    }

    /**
     * `registerNode(nodeData)`: a fresh entry is stored under its id,
     * replacing an entry already there; a replaced id keeps its place in
     * the Map's order, a new one goes last.
     */
    method RegisterNode(id: string, nodeType: string, capabilities: Capabilities, address: string, now: int)
      returns (node: Node)
      requires Valid()
      modifies this
      ensures Valid() && fresh(node)
      ensures nodes == old(nodes)[id := node] && taskQueue == old(taskQueue)
      ensures order == if id in old(nodes) then old(order) else old(order) + [id]
      ensures |nodes| == if id in old(nodes) then |old(nodes)| else |old(nodes)| + 1
      ensures node.Info() == NodeInfo(id, nodeType, capabilities, address, Online,
                                      Stats(0, 0, 0, 0, 0, InitialMaxTasks(capabilities), 0, 0),
                                      now, now, [])
    {
      node := new Node(id, nodeType, capabilities, address, now);
      if node.id !in nodes {
        order := order + [node.id];
      }
      nodes := nodes[node.id := node];
    }

    /** `unregisterNode(nodeId)`: only that key goes; the queue stays. */
    method UnregisterNode(nodeId: string)
      requires Valid()
      modifies this
      ensures Valid()
      ensures nodes == old(nodes) - {nodeId} && taskQueue == old(taskQueue)
      ensures order == Without(old(order), nodeId)
    {
      WithoutKeepsDistinct(order, nodeId);
      nodes := nodes - {nodeId};
      order := Without(order, nodeId);
    }

    /** `updateNodeStats(nodeId, stats)`: an unknown id changes nothing. */
    method UpdateNodeStats(nodeId: string, newStats: StatsUpdate, now: int)
      requires Valid()
      modifies if nodeId in nodes then {nodes[nodeId]} else {}
      ensures Valid() && nodes == old(nodes) && order == old(order) && taskQueue == old(taskQueue)
      ensures nodeId !in nodes ==> Infos() == old(Infos())
      ensures nodeId in nodes ==>
        nodes[nodeId].Info() == AfterUpdateStats(old(nodes[nodeId].Info()), newStats, now)
      ensures forall k :: k in nodes && k != nodeId ==> nodes[k].Info() == old(nodes[k].Info())
    {
      if nodeId in nodes {
        var node := nodes[nodeId];
        node.UpdateStats(newStats, now);
      }
    }

    /**
     * `findBestNode(taskType)`: a registered node that can handle the task
     * and is least loaded, the earliest registered among equals; `None`
     * exactly when no registered node can handle it.
     */
    function FindBestNode(taskType: string): (r: Result<Option<Node>>)
      reads this, nodes.Values
      requires Valid()
      ensures r.Error? <==> FindBestIndex(Infos(), taskType).Error?
      ensures r == Ok(None) <==> FindBestIndex(Infos(), taskType) == Ok(None)
      ensures r.Ok? && r.value.Some? ==>
        && FindBestIndex(Infos(), taskType).Ok? && FindBestIndex(Infos(), taskType).value.Some?
        && r.value.value == nodes[order[FindBestIndex(Infos(), taskType).value.value]]
    {
      match FindBestIndex(Infos(), taskType)
      case Error(e) => Error(e)
      case Ok(None) => Ok(None)
      case Ok(Some(i)) => Ok(Some(nodes[order[i]]))
    }

    /** `findBestNode` finds nothing exactly when every registered node declines the task. */
    lemma FindBestNodeNone(taskType: string)
      requires Valid()
      ensures FindBestNode(taskType) == Ok(None) <==>
        forall k :: k in nodes ==> CanHandleTask(nodes[k].Info(), taskType) == Ok(false)
    {
      var infos := Infos();
      assert forall k :: k in nodes ==> exists i :: 0 <= i < |order| && order[i] == k;
    }

    /**
     * The node `findBestNode` picks is registered, can handle the task, and
     * no node that can handle it carries less load.
     */
    lemma FindBestNodeIsLeastLoaded(taskType: string)
      requires Valid()
      ensures var r := FindBestNode(taskType);
        r.Ok? && r.value.Some? ==>
          && r.value.value in nodes.Values
          && CanHandleTask(r.value.value.Info(), taskType) == Ok(true)
          && forall k :: k in nodes && CanHandleTask(nodes[k].Info(), taskType) == Ok(true) ==>
               LoadAtMost(r.value.value.stats, nodes[k].stats)
    {
      var infos := Infos();
      var r := FindBestNode(taskType);
      if r.Ok? && r.value.Some? {
        var i := FindBestIndex(infos, taskType).value.value;
        forall k | k in nodes && CanHandleTask(nodes[k].Info(), taskType) == Ok(true)
          ensures LoadAtMost(r.value.value.stats, nodes[k].stats)
        {
          var j :| 0 <= j < |order| && order[j] == k;
          assert Eligible(infos[j], taskType);
        }
      }
    }

    /** The assignment half of `distributeTask`: `bestNode.assignTask(task)`. */
    method AssignAt(i: nat, task: Task, now: int) returns (node: Node)
      requires Valid() && i < |order|
      modifies nodes[order[i]]
      ensures node == nodes[order[i]]
      ensures Infos() == old(Infos())[i := AfterAssign(old(Infos())[i], task, now)]
    {
      ghost var before := Infos();
      node := nodes[order[i]];
      node.AssignTask(task, now);
      forall j | 0 <= j < |order| && j != i
        ensures nodes[order[j]].Info() == before[j]
      {
        assert nodes[order[j]] != node;
      }
    }

    /**
     * `distributeTask(task)`: the task goes to the node `findBestNode` picks,
     * or, when there is none, to the tail of the queue; a throwing selection
     * changes nothing.
     */
    method DistributeTask(task: Task, now: int) returns (r: Result<Option<Assignment>>)
      requires Valid()
      modifies this, nodes.Values
      ensures Valid() && nodes == old(nodes) && order == old(order)
      ensures old(FindBestIndex(Infos(), task.taskType)).Error? ==>
        r.Error? && taskQueue == old(taskQueue) && Infos() == old(Infos())
      ensures old(FindBestIndex(Infos(), task.taskType)) == Ok(None) ==>
        r == Ok(None) && taskQueue == old(taskQueue) + [task] && Infos() == old(Infos())
      ensures old(FindBestIndex(Infos(), task.taskType)).Ok? && old(FindBestIndex(Infos(), task.taskType)).value.Some? ==>
        var i := old(FindBestIndex(Infos(), task.taskType)).value.value;
        && r == Ok(Some(Assignment(nodes[order[i]], task)))
        && taskQueue == old(taskQueue)
        && Infos() == old(Infos())[i := AfterAssign(old(Infos())[i], task, now)]
    {
      var best := FindBestIndex(Infos(), task.taskType);
      if best.Error? {
        r := Error(best.message);
      } else if best.value.None? {
        taskQueue := taskQueue + [task];
        r := Ok(None);
      } else {
        var bestNode := AssignAt(best.value.value, task, now);
        r := Ok(Some(Assignment(bestNode, task)));
      }
    }

    /** `getSystemStats()`. */
    function GetSystemStats(): (r: SystemStats)
      reads this, nodes.Values
      requires Valid()
      ensures r == SystemStatsOf(Infos(), taskQueue)
      ensures r.totalNodes == |nodes|
      ensures r.onlineNodes + r.offlineNodes <= r.totalNodes
      ensures r.queuedTasks == |taskQueue|
      ensures r.totalTasks == 0 <==> forall k :: k in nodes ==> nodes[k].stats.activeTasks == 0
    {
      RegistrySize();
      var infos := Infos();
      assert forall k :: k in nodes ==> exists i :: 0 <= i < |order| && order[i] == k;
      SystemStatsOf(infos, taskQueue)
    }

    lemma RegistrySize()
      requires Valid()
      ensures |nodes| == |order|
    {
      var keys := set i | 0 <= i < |order| :: order[i];
      assert nodes.Keys == keys;
      DistinctCard(order);
    }

    static lemma {:induction false} DistinctCard(ids: seq<string>)
      requires Distinct(ids)
      ensures |set i | 0 <= i < |ids| :: ids[i]| == |ids|
    {
      if ids != [] {
        var last := |ids| - 1;
        var front := ids[..last];
        DistinctCard(front);
        var s := set i | 0 <= i < |ids| :: ids[i];
        var f := set i | 0 <= i < |front| :: front[i];
        assert s == f + {ids[last]};
        assert ids[last] !in f;
      }
    }
  }

  /**
   * One node of capacity 2: the first two tasks are assigned to it and the
   * third, with no capacity left, is queued.
   */
  lemma TwoSlotScenario(n: NodeInfo, t1: Task, t2: Task, t3: Task, now: int)
    requires n.status == Online && n.stats.activeTasks == 0 && n.stats.maxTasks == 2
    requires n.capabilities.supportedTasks == Some(["conversion"])
    requires t1.taskType == t2.taskType == t3.taskType == "conversion"
    ensures FindBestIndex([n], "conversion") == Ok(Some(0))
    ensures var n1 := AfterAssign(n, t1, now);
      FindBestIndex([n1], "conversion") == Ok(Some(0))
    ensures var n2 := AfterAssign(AfterAssign(n, t1, now), t2, now);
      FindBestIndex([n2], "conversion") == Ok(None)
  {
    assert Eligible(n, "conversion");
    var n1 := AfterAssign(n, t1, now);
    assert Eligible(n1, "conversion");
    var n2 := AfterAssign(n1, t2, now);
    assert CanHandleTask(n2, "conversion") == Ok(false);
  }
}
