/**
 * A registry entry of the load balancer: one worker node's identity,
 * capabilities, live statistics, derived status and list of assigned tasks
 * (server/models/Node.js).
 *
 * The node's mutable state is also given as a value, `NodeInfo`, and each
 * operation as a function on it (`AfterUpdateStats`, `AfterAssign`, ...);
 * the methods of class `Node` are specified by those functions, and the
 * lemmas below are stated on them. Clock readings (`new Date()`) are the
 * `now` parameter, in milliseconds.
 */
module NodeRegistry {
  import opened Wrappers

  const DefaultMaxTasks := 10
  /** cpu or memory above this percentage makes a node overloaded */
  const OverloadThreshold := 90
  /** a node silent for longer than this many milliseconds is offline */
  const HeartbeatTimeout := 30000

  datatype Status = Online | Overloaded | Offline

  /**
   * The `capabilities` value given at registration. An object may carry
   * `supportedTasks` and `maxTasks`; a bare array of task types (what the
   * workers send) has neither property.
   */
  datatype Capabilities = Capabilities(supportedTasks: Option<seq<string>>, maxTasks: Option<int>)

  /** cpu and memory are integer percentages. */
  datatype Stats = Stats(cpu: int, memory: int, disk: int, network: int,
                         activeTasks: nat, maxTasks: int,
                         completedTasks: nat, failedTasks: nat)

  /** A stats report: only the fields present (`Some`) are merged. */
  datatype StatsUpdate = StatsUpdate(cpu: Option<int>, memory: Option<int>,
                                     disk: Option<int>, network: Option<int>,
                                     activeTasks: Option<nat>, maxTasks: Option<int>,
                                     completedTasks: Option<nat>, failedTasks: Option<nat>)

  /** A task as built by the distribute-task route; `data` is opaque. */
  datatype Task = Task(id: string, taskType: string, data: string, priority: string)

  datatype TaskState = Processing | Completed | Failed

  /** A task on a node's list: the task plus the fields the node adds to it. */
  datatype TaskRecord = TaskRecord(task: Task, assignedAt: int, state: TaskState,
                                   completedAt: Option<int>, failedAt: Option<int>,
                                   error: Option<string>)

  datatype NodeInfo = NodeInfo(id: string, nodeType: string, capabilities: Capabilities,
                               address: string, status: Status, stats: Stats,
                               lastHeartbeat: int, registeredAt: int,
                               tasks: seq<TaskRecord>)

  /** What `getHealth` returns. */
  datatype Health = Health(status: Status, cpu: int, memory: int, activeTasks: nat,
                           maxTasks: int, completedTasks: nat, failedTasks: nat)

  const TypeErrorMessage := "Cannot read properties of undefined (reading 'includes')"

  /** `capabilities?.maxTasks || 10`: an absent or zero capacity falls back to 10. */
  function InitialMaxTasks(caps: Capabilities): int {
    if caps.maxTasks.Some? && caps.maxTasks.value != 0 then caps.maxTasks.value else DefaultMaxTasks
  }

  function Pick<T>(given: Option<T>, current: T): T {
    if given.Some? then given.value else current
  }

  /** `{ ...stats, ...newStats }` */
  function MergeStats(s: Stats, u: StatsUpdate): (r: Stats)
    ensures u.cpu.Some? ==> r.cpu == u.cpu.value
    ensures u.cpu.None? ==> r.cpu == s.cpu
    ensures u.memory.Some? ==> r.memory == u.memory.value
    ensures u.memory.None? ==> r.memory == s.memory
    ensures u.activeTasks.Some? ==> r.activeTasks == u.activeTasks.value
    ensures u.activeTasks.None? ==> r.activeTasks == s.activeTasks
    ensures u.maxTasks.Some? ==> r.maxTasks == u.maxTasks.value
    ensures u.maxTasks.None? ==> r.maxTasks == s.maxTasks
    ensures u.disk.Some? ==> r.disk == u.disk.value
    ensures u.disk.None? ==> r.disk == s.disk
    ensures u.network.Some? ==> r.network == u.network.value
    ensures u.network.None? ==> r.network == s.network
    ensures u.completedTasks.Some? ==> r.completedTasks == u.completedTasks.value
    ensures u.completedTasks.None? ==> r.completedTasks == s.completedTasks
    ensures u.failedTasks.Some? ==> r.failedTasks == u.failedTasks.value
    ensures u.failedTasks.None? ==> r.failedTasks == s.failedTasks
  {
    Stats(Pick(u.cpu, s.cpu), Pick(u.memory, s.memory), Pick(u.disk, s.disk),
          Pick(u.network, s.network), Pick(u.activeTasks, s.activeTasks),
          Pick(u.maxTasks, s.maxTasks), Pick(u.completedTasks, s.completedTasks),
          Pick(u.failedTasks, s.failedTasks))
  }

  /** The status a stats report sets: overloaded above 90% cpu or memory. */
  function StatusFor(s: Stats): (r: Status)
    ensures r == Overloaded <==> s.cpu > 90 || s.memory > 90
    ensures r == Online <==> s.cpu <= 90 && s.memory <= 90
    ensures r != Offline
  {
    if s.cpu > OverloadThreshold || s.memory > OverloadThreshold then Overloaded else Online
  }

  /** `updateStats(newStats)` at time `now`. */
  function AfterUpdateStats(n: NodeInfo, u: StatsUpdate, now: int): (r: NodeInfo)
    ensures r.stats == MergeStats(n.stats, u) && r.lastHeartbeat == now
    ensures r.status == Overloaded <==> r.stats.cpu > 90 || r.stats.memory > 90
    ensures r.status == Online <==> r.stats.cpu <= 90 && r.stats.memory <= 90
    ensures r.tasks == n.tasks && r.id == n.id && r.capabilities == n.capabilities
  {
    var merged := MergeStats(n.stats, u);
    n.(stats := merged, lastHeartbeat := now, status := StatusFor(merged))
  }

  /**
   * `canHandleTask(taskType)`. The conjunction is evaluated left to right, so
   * reading `supportedTasks` of a capabilities value without it throws only
   * when the node is online and below capacity.
   */
  function CanHandleTask(n: NodeInfo, taskType: string): (r: Result<bool>)
    ensures r.Error? <==> n.status == Online && n.stats.activeTasks < n.stats.maxTasks
                          && n.capabilities.supportedTasks.None?
    ensures r == Ok(true) <==> n.status == Online && n.stats.activeTasks < n.stats.maxTasks
                               && n.capabilities.supportedTasks.Some?
                               && taskType in n.capabilities.supportedTasks.value
    ensures r == Ok(true) ==> n.stats.maxTasks >= 1
  {
    if n.status != Online || n.stats.activeTasks >= n.stats.maxTasks then Ok(false)
    else if n.capabilities.supportedTasks.None? then Error(TypeErrorMessage)
    else Ok(taskType in n.capabilities.supportedTasks.value)
  }

  /** `assignTask(task)` at time `now`. */
  function AfterAssign(n: NodeInfo, task: Task, now: int): (r: NodeInfo)
    ensures r.stats.activeTasks == n.stats.activeTasks + 1
    ensures r.stats.maxTasks == n.stats.maxTasks && r.stats.completedTasks == n.stats.completedTasks
    ensures |r.tasks| == |n.tasks| + 1 && r.tasks[..|n.tasks|] == n.tasks
    ensures r.tasks[|n.tasks|].task == task && r.tasks[|n.tasks|].state == Processing
    ensures r.status == n.status && r.id == n.id && r.capabilities == n.capabilities
    // nothing else changes
    ensures r == n.(stats := n.stats.(activeTasks := r.stats.activeTasks), tasks := r.tasks)
  {
    n.(stats := n.stats.(activeTasks := n.stats.activeTasks + 1),
       tasks := n.tasks + [TaskRecord(task, now, Processing, None, None, None)])
  }

  /** `tasks.findIndex(t => t.id === taskId)`. */
  function FindTask(tasks: seq<TaskRecord>, taskId: string): (i: int)
    ensures -1 <= i < |tasks|
    ensures i >= 0 ==> tasks[i].task.id == taskId
    ensures i >= 0 ==> forall j :: 0 <= j < i ==> tasks[j].task.id != taskId
    ensures i == -1 ==> forall j :: 0 <= j < |tasks| ==> tasks[j].task.id != taskId
  {
    if tasks == [] then -1
    else if tasks[0].task.id == taskId then 0
    else
      var k := FindTask(tasks[1..], taskId);
      if k == -1 then -1 else k + 1
  }

  /** Position `j` holds the first record of task `taskId`. */
  ghost predicate IsFirstOf(tasks: seq<TaskRecord>, taskId: string, j: int) {
    0 <= j < |tasks| && tasks[j].task.id == taskId
    && forall k :: 0 <= k < j ==> tasks[k].task.id != taskId
  }

  /** `Math.max(0, activeTasks - 1)` */
  function Decremented(active: nat): nat {
    if active > 0 then active - 1 else 0
  }

  /** `completeTask(taskId)` at time `now`. */
  function AfterComplete(n: NodeInfo, taskId: string, now: int): (r: NodeInfo)
    ensures |r.tasks| == |n.tasks|
    ensures forall j :: 0 <= j < |n.tasks| ==>
      r.tasks[j] == if IsFirstOf(n.tasks, taskId, j)
                    then n.tasks[j].(state := Completed, completedAt := Some(now))
                    else n.tasks[j]
    ensures r.stats.activeTasks == if n.stats.activeTasks == 0 then 0 else n.stats.activeTasks - 1
    ensures r.stats.completedTasks == n.stats.completedTasks + 1
    ensures r.stats.failedTasks == n.stats.failedTasks && r.stats.maxTasks == n.stats.maxTasks
    ensures r.status == n.status && r.id == n.id && r.lastHeartbeat == n.lastHeartbeat
    // nothing else changes
    ensures r == n.(stats := n.stats.(activeTasks := r.stats.activeTasks,
                                      completedTasks := r.stats.completedTasks),
                    tasks := r.tasks)
  {
    var i := FindTask(n.tasks, taskId);
    var tasks := if i == -1 then n.tasks
                 else n.tasks[i := n.tasks[i].(state := Completed, completedAt := Some(now))];
    n.(tasks := tasks,
       stats := n.stats.(activeTasks := Decremented(n.stats.activeTasks),
                         completedTasks := n.stats.completedTasks + 1))
  }

  /** `failTask(taskId, error)` at time `now`. */
  function AfterFail(n: NodeInfo, taskId: string, error: string, now: int): (r: NodeInfo)
    ensures |r.tasks| == |n.tasks|
    ensures forall j :: 0 <= j < |n.tasks| ==>
      r.tasks[j] == if IsFirstOf(n.tasks, taskId, j)
                    then n.tasks[j].(state := Failed, error := Some(error), failedAt := Some(now))
                    else n.tasks[j]
    ensures r.stats.activeTasks == if n.stats.activeTasks == 0 then 0 else n.stats.activeTasks - 1
    ensures r.stats.failedTasks == n.stats.failedTasks + 1
    ensures r.stats.completedTasks == n.stats.completedTasks && r.stats.maxTasks == n.stats.maxTasks
    ensures r.status == n.status && r.id == n.id && r.lastHeartbeat == n.lastHeartbeat
    // nothing else changes
    ensures r == n.(stats := n.stats.(activeTasks := r.stats.activeTasks,
                                      failedTasks := r.stats.failedTasks),
                    tasks := r.tasks)
  {
    var i := FindTask(n.tasks, taskId);
    var tasks := if i == -1 then n.tasks
                 else n.tasks[i := n.tasks[i].(state := Failed, error := Some(error), failedAt := Some(now))];
    n.(tasks := tasks,
       stats := n.stats.(activeTasks := Decremented(n.stats.activeTasks),
                         failedTasks := n.stats.failedTasks + 1))
  }

  /** The staleness check of `getHealth()` at time `now`. */
  function AfterHealthCheck(n: NodeInfo, now: int): (r: NodeInfo)
    ensures r.status == Offline <==> now - n.lastHeartbeat > HeartbeatTimeout || n.status == Offline
    ensures now - n.lastHeartbeat <= HeartbeatTimeout ==> r == n
    ensures r == n.(status := r.status)
  {
    if now - n.lastHeartbeat > HeartbeatTimeout then n.(status := Offline) else n
  }

  /** The snapshot `getHealth()` returns. */
  function HealthOf(n: NodeInfo): (h: Health)
    ensures h.status == n.status && h.cpu == n.stats.cpu && h.memory == n.stats.memory
    ensures h.activeTasks == n.stats.activeTasks && h.maxTasks == n.stats.maxTasks
    ensures h.completedTasks == n.stats.completedTasks && h.failedTasks == n.stats.failedTasks
  {
    Health(n.status, n.stats.cpu, n.stats.memory, n.stats.activeTasks, n.stats.maxTasks,
           n.stats.completedTasks, n.stats.failedTasks)
  }

  /** The number of records still processing. */
  function ProcessingCount(tasks: seq<TaskRecord>): nat {
    if tasks == [] then 0
    else (if tasks[0].state == Processing then 1 else 0) + ProcessingCount(tasks[1..])
  }

  /** The bookkeeping invariant: one active task per processing record. */
  ghost predicate CountsAgree(n: NodeInfo) {
    n.stats.activeTasks == ProcessingCount(n.tasks)
  }

  lemma {:induction false} ProcessingCountAppend(tasks: seq<TaskRecord>, t: TaskRecord)
    ensures ProcessingCount(tasks + [t]) == ProcessingCount(tasks) + (if t.state == Processing then 1 else 0)
  {
    if tasks != [] {
      assert (tasks + [t])[1..] == tasks[1..] + [t];
      ProcessingCountAppend(tasks[1..], t);
    }
  }

  lemma {:induction false} ProcessingCountUpdate(tasks: seq<TaskRecord>, i: nat, t: TaskRecord)
    requires i < |tasks| && tasks[i].state == Processing && t.state != Processing
    ensures ProcessingCount(tasks[i := t]) + 1 == ProcessingCount(tasks)
  {
    if i == 0 {
      assert tasks[i := t][1..] == tasks[1..];
    } else {
      assert tasks[i := t][1..] == tasks[1..][i - 1 := t];
      ProcessingCountUpdate(tasks[1..], i - 1, t);
    }
  }

  /** Assigning a task keeps activeTasks equal to the number of processing records. */
  lemma AssignKeepsCounts(n: NodeInfo, task: Task, now: int)
    requires CountsAgree(n)
    ensures CountsAgree(AfterAssign(n, task, now))
  {
    ProcessingCountAppend(n.tasks, TaskRecord(task, now, Processing, None, None, None));
  }

  /** Completing or failing a task whose first record is still processing keeps the count. */
  lemma FinishKeepsCounts(n: NodeInfo, taskId: string, error: string, now: int)
    requires CountsAgree(n)
    requires exists j :: IsFirstOf(n.tasks, taskId, j) && n.tasks[j].state == Processing
    ensures CountsAgree(AfterComplete(n, taskId, now))
    ensures CountsAgree(AfterFail(n, taskId, error, now))
  {
    var j :| IsFirstOf(n.tasks, taskId, j) && n.tasks[j].state == Processing;
    var done := n.tasks[j].(state := Completed, completedAt := Some(now));
    var failed := n.tasks[j].(state := Failed, error := Some(error), failedAt := Some(now));
    ProcessingCountUpdate(n.tasks, j, done);
    ProcessingCountUpdate(n.tasks, j, failed);
    assert AfterComplete(n, taskId, now).tasks == n.tasks[j := done];
    assert AfterFail(n, taskId, error, now).tasks == n.tasks[j := failed];
  }

  /**
   * The code does not keep that bookkeeping: completing an id the node does
   * not hold still lowers activeTasks (and counts a completion), so the
   * counter drops below the number of processing records.
   */
  lemma CompleteUnknownBreaksCounts(n: NodeInfo, taskId: string, now: int)
    requires CountsAgree(n) && n.stats.activeTasks > 0
    requires forall j :: 0 <= j < |n.tasks| ==> n.tasks[j].task.id != taskId
    ensures !CountsAgree(AfterComplete(n, taskId, now))
    ensures AfterComplete(n, taskId, now).stats.completedTasks == n.stats.completedTasks + 1
  {
    assert AfterComplete(n, taskId, now).tasks == n.tasks;
  }

  /** A node chosen while eligible stays within its capacity after the assignment. */
  lemma AssignWithinCapacity(n: NodeInfo, task: Task, now: int)
    requires CanHandleTask(n, task.taskType) == Ok(true)
    ensures 1 <= AfterAssign(n, task, now).stats.activeTasks <= n.stats.maxTasks
    ensures AfterAssign(n, task, now).tasks[|n.tasks|].task.taskType in n.capabilities.supportedTasks.value
  {
  }

  /**
   * A stats report revives a node even if it was offline; a health check
   * within 30 s of it leaves the status it set, and one later than that
   * makes the node offline, after which it accepts no task at all.
   */
  lemma {:induction false} HeartbeatLifecycle(n: NodeInfo, u: StatsUpdate, reported: int, now: int, taskType: string)
    ensures var checked := AfterHealthCheck(AfterUpdateStats(n, u, reported), now);
      && (now - reported <= HeartbeatTimeout ==>
            checked.status == (if checked.stats.cpu > 90 || checked.stats.memory > 90 then Overloaded else Online))
      && (now - reported > HeartbeatTimeout ==>
            checked.status == Offline && CanHandleTask(checked, taskType) == Ok(false))
  {
    var updated := AfterUpdateStats(n, u, reported);
    assert updated.status != Offline;
  }

  /** Applying the same stats report twice is the same as applying it once. */
  lemma UpdateStatsIdempotent(n: NodeInfo, u: StatsUpdate, now: int)
    ensures AfterUpdateStats(AfterUpdateStats(n, u, now), u, now) == AfterUpdateStats(n, u, now)
  {
  }

  /** A worker node's registry entry; the balancer owns one per registered id. */
  class Node {
    const id: string
    const nodeType: string
    const capabilities: Capabilities
    const address: string
    const registeredAt: int
    var status: Status
    var stats: Stats
    var lastHeartbeat: int
    var tasks: seq<TaskRecord>

    /** The node's state as a value. */
    function Info(): NodeInfo
      reads this
    {
      NodeInfo(id, nodeType, capabilities, address, status, stats, lastHeartbeat, registeredAt, tasks)
    }

    /** A new entry is online, with zeroed statistics, capacity
        `capabilities?.maxTasks || 10` and no tasks. */
    constructor (id: string, nodeType: string, capabilities: Capabilities, address: string, now: int)
      ensures Info() == NodeInfo(id, nodeType, capabilities, address, Online,
                                 Stats(0, 0, 0, 0, 0, InitialMaxTasks(capabilities), 0, 0),
                                 now, now, [])
      ensures stats.maxTasks == (if capabilities.maxTasks.Some? && capabilities.maxTasks.value != 0
                                 then capabilities.maxTasks.value else 10)
    {
      this.id := id;
      this.nodeType := nodeType;
      this.capabilities := capabilities;
      this.address := address;
      status := Online;
      stats := Stats(0, 0, 0, 0, 0, InitialMaxTasks(capabilities), 0, 0);
      lastHeartbeat := now;
      registeredAt := now;
      tasks := [];
    }

    method UpdateStats(newStats: StatsUpdate, now: int)
      modifies this
      ensures Info() == AfterUpdateStats(old(Info()), newStats, now)
    {
      stats := MergeStats(stats, newStats);
      lastHeartbeat := now;
      if stats.cpu > OverloadThreshold || stats.memory > OverloadThreshold {
        status := Overloaded;
      } else {
        status := Online;
      }
    }

    method AssignTask(task: Task, now: int)
      modifies this
      ensures Info() == AfterAssign(old(Info()), task, now)
    {
      stats := stats.(activeTasks := stats.activeTasks + 1);
      tasks := tasks + [TaskRecord(task, now, Processing, None, None, None)];
    }

    method CompleteTask(taskId: string, now: int)
      modifies this
      ensures Info() == AfterComplete(old(Info()), taskId, now)
    {
      var taskIndex := FindTask(tasks, taskId);
      if taskIndex != -1 {
        tasks := tasks[taskIndex := tasks[taskIndex].(state := Completed, completedAt := Some(now))];
      }
      stats := stats.(activeTasks := Decremented(stats.activeTasks),
                      completedTasks := stats.completedTasks + 1);
    }

    method FailTask(taskId: string, error: string, now: int)
      modifies this
      ensures Info() == AfterFail(old(Info()), taskId, error, now)
    {
      var taskIndex := FindTask(tasks, taskId);
      if taskIndex != -1 {
        tasks := tasks[taskIndex := tasks[taskIndex].(state := Failed, error := Some(error), failedAt := Some(now))];
      }
      stats := stats.(activeTasks := Decremented(stats.activeTasks),
                      failedTasks := stats.failedTasks + 1);
    }

    method GetHealth(now: int) returns (health: Health)
      modifies this
      ensures Info() == AfterHealthCheck(old(Info()), now)
      ensures health == HealthOf(Info())
      ensures health.activeTasks == stats.activeTasks && health.maxTasks == stats.maxTasks
      ensures health.status == Offline <==> now - old(lastHeartbeat) > HeartbeatTimeout || old(status) == Offline
    {
      if now - lastHeartbeat > HeartbeatTimeout {
        status := Offline;
      }
      health := Health(status, stats.cpu, stats.memory, stats.activeTasks, stats.maxTasks,
                       stats.completedTasks, stats.failedTasks);
    }
  }
}
