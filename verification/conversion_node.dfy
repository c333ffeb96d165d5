/**
 * The bookkeeping of conversion worker #2 (server/nodes/conversionNode2.js):
 * the `nodeState` counters and the `activeTasks` Map, changed by the
 * execute, completion, failure and cancel handlers and read by the status
 * and health handlers.
 *
 * `Worker` is a value snapshot of that state; each handler is a function on
 * snapshots, and class `WorkerNode` holds the state and is proved against
 * those functions.
 */
module ConversionNode {
  import opened Wrappers

  const NodeId: string := "conversion-node-2"
  const NodeType: string := "conversion"
  const Capabilities: seq<string> := ["audio", "video", "image"]
  const MaxConcurrentTasks: int := 2

  datatype WorkerStatus = Starting | Online | RegistrationFailed

  datatype TaskStatus = Processing | Cancelled

  datatype TaskEntry = TaskEntry(startTime: int, taskType: string, data: string, status: TaskStatus)

  datatype NodeState = NodeState(activeTasks: int, completedTasks: nat, failedTasks: nat,
                                 cpuUsage: int, memoryUsage: int, lastHeartbeat: int,
                                 status: WorkerStatus)

  datatype Worker = Worker(state: NodeState, tasks: map<string, TaskEntry>)

  datatype ExecuteReply = Accepted(taskId: string, nodeId: string) | Saturated(taskId: string)

  datatype StatusReply =
    | StatusNotFound
    | TaskProgress(taskId: string, status: TaskStatus, progress: int, elapsedTime: int, nodeId: string)

  datatype CancelReply = CancelNotFound | CancelOk(taskId: string)

  /** The body `updateNodeStats()` posts to the main server. */
  datatype StatsReport = StatsReport(cpu: int, memory: int, activeTasks: int, maxTasks: int,
                                     completedTasks: nat, failedTasks: nat)

  datatype HealthReport = HealthReport(status: string, nodeId: string, nodeType: string,
                                       capabilities: seq<string>, timestamp: int,
                                       cpu: int, memory: int, activeTasks: int, maxTasks: int,
                                       completedTasks: nat, failedTasks: nat,
                                       nodeStatus: WorkerStatus)

  /** The state at start-up, before registration. */
  function Initial(now: int): (w: Worker)
    ensures w.tasks == map[] && w.state.activeTasks == 0
    ensures w.state.completedTasks == 0 && w.state.failedTasks == 0
    ensures w.state.status == Starting
  {
    Worker(NodeState(0, 0, 0, 0, 0, now, Starting), map[])
  }

  /** The outcome of registering with the main server. */
  function AfterRegistration(w: Worker, success: bool): (r: Worker)
    ensures r.tasks == w.tasks
    ensures r.state == w.state.(status := if success then Online else RegistrationFailed)
  {
    Worker(w.state.(status := if success then Online else RegistrationFailed), w.tasks)
  }

  function Clamp(lo: int, hi: int, x: int): (r: int)
    requires lo <= hi
    ensures lo <= r <= hi
    ensures lo <= x <= hi ==> r == x
  {
    if x < lo then lo else if x > hi then hi else x
  }

  /**
   * `updateNodeStats()` on the worker: cpu and memory are sampled as a
   * random noise plus a load term, clamped to [15, 100] and [25, 100];
   * the noises (`Math.random()*70` and `*50`) are parameters here.
   */
  function AfterSample(w: Worker, cpuNoise: int, memoryNoise: int, now: int): (r: Worker)
    ensures r.tasks == w.tasks
    ensures 15 <= r.state.cpuUsage <= 100 && 25 <= r.state.memoryUsage <= 100
    ensures r.state.lastHeartbeat == now
    ensures r.state.activeTasks == w.state.activeTasks && r.state.status == w.state.status
    ensures r.state.completedTasks == w.state.completedTasks && r.state.failedTasks == w.state.failedTasks
  {
    var cpu := Clamp(15, 100, cpuNoise + w.state.activeTasks * 20);
    var memory := Clamp(25, 100, memoryNoise + w.state.activeTasks * 15);
    Worker(w.state.(cpuUsage := cpu, memoryUsage := memory, lastHeartbeat := now), w.tasks)
  }

  /** The statistics `updateNodeStats()` posts once it has sampled: the counters as they stand, capacity 2. */
  function StatsReportFor(w: Worker): (r: StatsReport)
    ensures r.cpu == w.state.cpuUsage && r.memory == w.state.memoryUsage
    ensures r.activeTasks == w.state.activeTasks && r.maxTasks == MaxConcurrentTasks
    ensures r.completedTasks == w.state.completedTasks && r.failedTasks == w.state.failedTasks
  {
    StatsReport(w.state.cpuUsage, w.state.memoryUsage, w.state.activeTasks, MaxConcurrentTasks,
                w.state.completedTasks, w.state.failedTasks)
  }

  /** The capacity check of the execute handler. */
  predicate Admits(w: Worker) {
    w.state.activeTasks < MaxConcurrentTasks
  }

  /** The execute handler: reject when saturated, otherwise count and store. */
  function AfterExecute(w: Worker, taskId: string, taskType: string, data: string, now: int): (r: Worker)
    ensures !Admits(w) ==> r == w
    ensures Admits(w) ==>
      && r.state == w.state.(activeTasks := w.state.activeTasks + 1)
      && taskId in r.tasks && r.tasks[taskId] == TaskEntry(now, taskType, data, Processing)
      && (forall id :: id != taskId ==> (id in r.tasks <==> id in w.tasks))
      && (forall id :: id in w.tasks && id != taskId ==> r.tasks[id] == w.tasks[id])
  {
    if !Admits(w) then w
    else Worker(w.state.(activeTasks := w.state.activeTasks + 1),
                w.tasks[taskId := TaskEntry(now, taskType, data, Processing)])
  }

  function ExecuteReplyFor(w: Worker, taskId: string): (r: ExecuteReply)
    ensures r.Accepted? <==> w.state.activeTasks < MaxConcurrentTasks
    ensures r.taskId == taskId
    ensures r.Accepted? ==> r.nodeId == NodeId
  {
    if Admits(w) then Accepted(taskId, NodeId) else Saturated(taskId)
  }

  /** The completion callback of a task's background processing. */
  function AfterSuccess(w: Worker, taskId: string): (r: Worker)
    ensures r.state == w.state.(activeTasks := w.state.activeTasks - 1,
                                completedTasks := w.state.completedTasks + 1)
    ensures r.tasks == w.tasks - {taskId}
  {
    Worker(w.state.(activeTasks := w.state.activeTasks - 1,
                    completedTasks := w.state.completedTasks + 1),
           w.tasks - {taskId})
  }

  /** The failure callback of a task's background processing. */
  function AfterFailure(w: Worker, taskId: string): (r: Worker)
    ensures r.state == w.state.(activeTasks := w.state.activeTasks - 1,
                                failedTasks := w.state.failedTasks + 1)
    ensures r.tasks == w.tasks - {taskId}
  {
    Worker(w.state.(activeTasks := w.state.activeTasks - 1,
                    failedTasks := w.state.failedTasks + 1),
           w.tasks - {taskId})
  }

  /** The cancel handler: an unknown id changes nothing. */
  function AfterCancel(w: Worker, taskId: string): (r: Worker)
    ensures taskId !in w.tasks ==> r == w
    ensures taskId in w.tasks ==>
      r.state == w.state.(activeTasks := w.state.activeTasks - 1) && r.tasks == w.tasks - {taskId}
  {
    if taskId !in w.tasks then w
    else Worker(w.state.(activeTasks := w.state.activeTasks - 1), w.tasks - {taskId})
  }

  function CancelReplyFor(w: Worker, taskId: string): (r: CancelReply)
    ensures r.CancelNotFound? <==> taskId !in w.tasks
    ensures r.CancelOk? ==> r.taskId == taskId
  {
    if taskId !in w.tasks then CancelNotFound else CancelOk(taskId)
  }

  /**
   * `Math.round(Math.min(95, elapsed / 30000 * 100))`: elapsed/300 rounded
   * half up, capped at 95.
   */
  function Progress(elapsed: int): (p: int)
    ensures p <= 95
    ensures elapsed >= 0 ==> p >= 0
    ensures p < 95 ==> 300 * p - 150 <= elapsed < 300 * p + 150
    ensures p == 95 <==> elapsed >= 28350
  {
    var rounded := (elapsed + 150) / 300;
    if rounded > 95 then 95 else rounded
  }

  lemma ProgressMonotone(e1: int, e2: int)
    requires e1 <= e2
    ensures Progress(e1) <= Progress(e2)
  {
  }

  /** The status handler. */
  function StatusReplyFor(w: Worker, taskId: string, now: int): (r: StatusReply)
    ensures r.StatusNotFound? <==> taskId !in w.tasks
    ensures r.TaskProgress? ==>
      && r.taskId == taskId && r.nodeId == NodeId
      && r.status == w.tasks[taskId].status
      && r.elapsedTime == now - w.tasks[taskId].startTime
      && r.progress <= 95
      && (r.elapsedTime >= 0 ==> 0 <= r.progress)
  {
    if taskId !in w.tasks then StatusNotFound
    else
      var elapsed := now - w.tasks[taskId].startTime;
      TaskProgress(taskId, w.tasks[taskId].status, Progress(elapsed), elapsed, NodeId)
  }

  /** The health handler: the counters as they stand, capacity 2. */
  function HealthReportFor(w: Worker, now: int): (r: HealthReport)
    ensures r.activeTasks == w.state.activeTasks
    ensures r.completedTasks == w.state.completedTasks && r.failedTasks == w.state.failedTasks
    ensures r.maxTasks == MaxConcurrentTasks == 2
    ensures r.status == "healthy" && r.nodeId == NodeId && r.nodeStatus == w.state.status
  {
    HealthReport("healthy", NodeId, NodeType, Capabilities, now,
                 w.state.cpuUsage, w.state.memoryUsage, w.state.activeTasks, MaxConcurrentTasks,
                 w.state.completedTasks, w.state.failedTasks, w.state.status)
  }

  /**
   * The counter agrees with the Map and every stored task is processing,
   * and the capacity of 2 is respected.
   */
  ghost predicate Consistent(w: Worker) {
    && w.state.activeTasks == |w.tasks|
    && w.state.activeTasks <= MaxConcurrentTasks
    && forall id :: id in w.tasks ==> w.tasks[id].status == Processing
  }

  lemma InitialConsistent(now: int)
    ensures Consistent(Initial(now))
  {
  }

  /** Accepting a task under a fresh id keeps the counter and the Map in step. */
  lemma ExecuteFreshKeepsConsistent(w: Worker, taskId: string, taskType: string, data: string, now: int)
    requires Consistent(w) && taskId !in w.tasks
    ensures Consistent(AfterExecute(w, taskId, taskType, data, now))
  {
    if Admits(w) {
      assert AfterExecute(w, taskId, taskType, data, now).tasks.Keys == w.tasks.Keys + {taskId};
    }
  }

  /** Finishing, failing or cancelling a stored task keeps them in step. */
  lemma FinishKnownKeepsConsistent(w: Worker, taskId: string)
    requires Consistent(w) && taskId in w.tasks
    ensures Consistent(AfterSuccess(w, taskId))
    ensures Consistent(AfterFailure(w, taskId))
    ensures Consistent(AfterCancel(w, taskId))
  {
    assert (w.tasks - {taskId}).Keys == w.tasks.Keys - {taskId};
  }

  lemma SampleKeepsConsistent(w: Worker, cpuNoise: int, memoryNoise: int, now: int, success: bool)
    requires Consistent(w)
    ensures Consistent(AfterSample(w, cpuNoise, memoryNoise, now))
    ensures Consistent(AfterRegistration(w, success))
  {
  }

  /**
   * After a stored task completes, the statistics posted to the main server
   * count exactly the tasks the worker still holds.
   */
  lemma PostedCountAfterSuccess(w: Worker, taskId: string, cpuNoise: int, memoryNoise: int, now: int)
    requires Consistent(w) && taskId in w.tasks
    ensures var r := AfterSample(AfterSuccess(w, taskId), cpuNoise, memoryNoise, now);
      && Consistent(r)
      && StatsReportFor(r).activeTasks == |r.tasks| == |w.tasks| - 1
      && StatsReportFor(r).completedTasks == w.state.completedTasks + 1
  {
    FinishKnownKeepsConsistent(w, taskId);
    SampleKeepsConsistent(AfterSuccess(w, taskId), cpuNoise, memoryNoise, now, true);
    assert (w.tasks - {taskId}).Keys == w.tasks.Keys - {taskId};
  }

  /** A rejected request leaves the state exactly as it was. */
  lemma SaturatedChangesNothing(w: Worker, taskId: string, taskType: string, data: string, now: int)
    requires w.state.activeTasks >= MaxConcurrentTasks
    ensures ExecuteReplyFor(w, taskId) == Saturated(taskId)
    ensures AfterExecute(w, taskId, taskType, data, now) == w
  {
  }

  /** A cancelled task is gone: a later status query does not find it. */
  lemma CancelThenStatusNotFound(w: Worker, taskId: string, now: int)
    ensures StatusReplyFor(AfterCancel(w, taskId), taskId, now) == StatusNotFound
  {
  }

  /**
   * A duplicate task id is counted again but overwrites the Map entry, so
   * the counter runs ahead of the Map.
   */
  lemma DuplicateIdBreaksCount(w: Worker, taskId: string, taskType: string, data: string, now: int)
    requires Consistent(w) && taskId in w.tasks && Admits(w)
    ensures var r := AfterExecute(w, taskId, taskType, data, now);
      r.state.activeTasks == |r.tasks| + 1
  {
    var r := AfterExecute(w, taskId, taskType, data, now);
    assert r.tasks.Keys == w.tasks.Keys;
  }

  /**
   * Cancelling a task does not stop its background processing, whose
   * completion decrements the counter a second time.
   */
  lemma CancelThenFinishDecrementsTwice(w: Worker, taskId: string)
    requires Consistent(w) && taskId in w.tasks
    ensures var r := AfterSuccess(AfterCancel(w, taskId), taskId);
      r.state.activeTasks == w.state.activeTasks - 2 && r.state.activeTasks == |r.tasks| - 1
  {
    assert (w.tasks - {taskId}).Keys == w.tasks.Keys - {taskId};
  }

  /**
   * From a fresh start: accept "a", cancel it, let its processing finish,
   * then three more tasks are all accepted and the worker runs three tasks
   * at once despite its capacity of 2.
   */
  lemma CancelledCompletionOveradmits(now: int)
    ensures
      var w1 := AfterExecute(Initial(now), "a", "conversion", "", now);
      var w2 := AfterSuccess(AfterCancel(w1, "a"), "a");
      var w3 := AfterExecute(w2, "b", "conversion", "", now);
      var w4 := AfterExecute(w3, "c", "conversion", "", now);
      var w5 := AfterExecute(w4, "d", "conversion", "", now);
      && ExecuteReplyFor(w4, "d").Accepted?
      && w5.tasks.Keys == {"b", "c", "d"}
      && |w5.tasks| > MaxConcurrentTasks
  {
    var w1 := AfterExecute(Initial(now), "a", "conversion", "", now);
    var w2 := AfterSuccess(AfterCancel(w1, "a"), "a");
    assert w2.state.activeTasks == -1 && w2.tasks.Keys == {};
    var w3 := AfterExecute(w2, "b", "conversion", "", now);
    var w4 := AfterExecute(w3, "c", "conversion", "", now);
    var w5 := AfterExecute(w4, "d", "conversion", "", now);
    assert w5.tasks.Keys == {"b", "c", "d"};
    assert |{"b", "c", "d"}| == 3;
  }

  /** The worker process: `nodeState` and the `activeTasks` Map. */
  class WorkerNode {
    var nodeState: NodeState
    var activeTasks: map<string, TaskEntry>

    function Snapshot(): Worker
      reads this
    {
      Worker(nodeState, activeTasks)
    }

    constructor (now: int)
      ensures Snapshot() == Initial(now)
    {
      nodeState := NodeState(0, 0, 0, 0, 0, now, Starting);
      activeTasks := map[];
    }

    /** `registerWithMainServer()` once the response (or its failure) is known. */
    method RecordRegistration(success: bool) returns (registered: bool)
      modifies this
      ensures registered == success
      ensures Snapshot() == AfterRegistration(old(Snapshot()), success)
    {
      if success {
        nodeState := nodeState.(status := Online);
      } else {
        nodeState := nodeState.(status := RegistrationFailed);
      }
      registered := success;
    }

    /**
     * `updateNodeStats()` with the random noises as parameters: samples the
     * metrics and returns the statistics it posts to the main server.
     */
    method UpdateNodeStats(cpuNoise: int, memoryNoise: int, now: int) returns (posted: StatsReport)
      modifies this
      ensures Snapshot() == AfterSample(old(Snapshot()), cpuNoise, memoryNoise, now)
      ensures posted == StatsReportFor(Snapshot())
    {
      var cpu := cpuNoise + nodeState.activeTasks * 20;
      if cpu > 100 { cpu := 100; }
      if cpu < 15 { cpu := 15; }
      var memory := memoryNoise + nodeState.activeTasks * 15;
      if memory > 100 { memory := 100; }
      if memory < 25 { memory := 25; }
      nodeState := nodeState.(cpuUsage := cpu, memoryUsage := memory, lastHeartbeat := now);
      posted := StatsReport(cpu, memory, nodeState.activeTasks, MaxConcurrentTasks,
                            nodeState.completedTasks, nodeState.failedTasks);
    }

    /**
     * `POST /api/tasks/execute` up to the reply: an accepted task is
     * counted and stored, and the metrics are sampled and posted.
     */
    method Execute(taskId: string, taskType: string, data: string, cpuNoise: int, memoryNoise: int, now: int)
      returns (reply: ExecuteReply, posted: Option<StatsReport>)
      modifies this
      ensures reply == ExecuteReplyFor(old(Snapshot()), taskId)
      ensures !Admits(old(Snapshot())) ==> Snapshot() == old(Snapshot()) && posted == None
      ensures Admits(old(Snapshot())) ==>
        && Snapshot() == AfterSample(AfterExecute(old(Snapshot()), taskId, taskType, data, now),
                                     cpuNoise, memoryNoise, now)
        && posted == Some(StatsReportFor(Snapshot()))
    {
      if nodeState.activeTasks >= MaxConcurrentTasks {
        return Saturated(taskId), None;
      }
      nodeState := nodeState.(activeTasks := nodeState.activeTasks + 1);
      activeTasks := activeTasks[taskId := TaskEntry(now, taskType, data, Processing)];
      var stats := UpdateNodeStats(cpuNoise, memoryNoise, now);
      reply, posted := Accepted(taskId, NodeId), Some(stats);
    }

    /** The `.then` callback of `processTask`, with the metrics sample it triggers. */
    method CompleteTask(taskId: string, cpuNoise: int, memoryNoise: int, now: int) returns (posted: StatsReport)
      modifies this
      ensures Snapshot() == AfterSample(AfterSuccess(old(Snapshot()), taskId), cpuNoise, memoryNoise, now)
      ensures posted == StatsReportFor(Snapshot())
    {
      nodeState := nodeState.(activeTasks := nodeState.activeTasks - 1);
      nodeState := nodeState.(completedTasks := nodeState.completedTasks + 1);
      activeTasks := activeTasks - {taskId};
      posted := UpdateNodeStats(cpuNoise, memoryNoise, now);
    }

    /** The `.catch` callback of `processTask`, with the metrics sample it triggers. */
    method FailTask(taskId: string, cpuNoise: int, memoryNoise: int, now: int) returns (posted: StatsReport)
      modifies this
      ensures Snapshot() == AfterSample(AfterFailure(old(Snapshot()), taskId), cpuNoise, memoryNoise, now)
      ensures posted == StatsReportFor(Snapshot())
    {
      nodeState := nodeState.(activeTasks := nodeState.activeTasks - 1);
      nodeState := nodeState.(failedTasks := nodeState.failedTasks + 1);
      activeTasks := activeTasks - {taskId};
      posted := UpdateNodeStats(cpuNoise, memoryNoise, now);
    }

    /** `GET /api/tasks/:taskId/status`. */
    method GetTaskStatus(taskId: string, now: int) returns (reply: StatusReply)
      ensures reply.StatusNotFound? <==> taskId !in activeTasks
      ensures reply.TaskProgress? ==>
        && reply.taskId == taskId
        && reply.elapsedTime == now - activeTasks[taskId].startTime
        && reply.progress == Progress(reply.elapsedTime)
        && reply.status == activeTasks[taskId].status
    {
      if taskId !in activeTasks {
        return StatusNotFound;
      }
      var task := activeTasks[taskId];
      var elapsed := now - task.startTime;
      var progress := (elapsed + 150) / 300;
      if progress > 95 {
        progress := 95;
      }
      reply := TaskProgress(taskId, task.status, progress, elapsed, NodeId);
    }

    /** `POST /api/tasks/:taskId/cancel`: a found task is removed and the metrics are sampled and posted. */
    method Cancel(taskId: string, cpuNoise: int, memoryNoise: int, now: int)
      returns (reply: CancelReply, posted: Option<StatsReport>)
      modifies this
      ensures reply == CancelReplyFor(old(Snapshot()), taskId)
      ensures taskId !in old(activeTasks) ==> Snapshot() == old(Snapshot()) && posted == None
      ensures taskId in old(activeTasks) ==>
        && Snapshot() == AfterSample(AfterCancel(old(Snapshot()), taskId), cpuNoise, memoryNoise, now)
        && posted == Some(StatsReportFor(Snapshot()))
    {
      if taskId !in activeTasks {
        return CancelNotFound, None;
      }
      activeTasks := activeTasks[taskId := activeTasks[taskId].(status := Cancelled)];
      nodeState := nodeState.(activeTasks := nodeState.activeTasks - 1);
      activeTasks := activeTasks - {taskId};
      var stats := UpdateNodeStats(cpuNoise, memoryNoise, now);
      reply, posted := CancelOk(taskId), Some(stats);
    }

    /** `GET /api/health`. */
    method Health(now: int) returns (report: HealthReport)
      ensures report.activeTasks == nodeState.activeTasks
      ensures report.completedTasks == nodeState.completedTasks
      ensures report.failedTasks == nodeState.failedTasks
      ensures report.maxTasks == 2 && report.nodeStatus == nodeState.status
      ensures report.cpu == nodeState.cpuUsage && report.memory == nodeState.memoryUsage
    {
      report := HealthReport("healthy", NodeId, NodeType, Capabilities, now,
                             nodeState.cpuUsage, nodeState.memoryUsage, nodeState.activeTasks,
                             MaxConcurrentTasks, nodeState.completedTasks, nodeState.failedTasks,
                             nodeState.status);
    }
  }
}
