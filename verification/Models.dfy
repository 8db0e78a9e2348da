/** The agent's domain records: tasks, GPU summaries and the observations about them.
    Memory sizes that Python keeps as floats are reals; declared sizes are whole megabytes. */
module Models {
  import opened Basics

  type TaskId = string

  datatype TaskStatus = Queued | Reserved | Running | Succeeded | Failed | Cancelled | Abnormal {
    predicate IsTerminal() {
      Succeeded? || Failed? || Cancelled? || Abnormal?
    }
  }

  datatype EndReason =
    | ExitZero | ExitNonzero | PidDisappeared | AttachTimeout | RunningNoPid | CancelledByUser | LaunchFailed

  datatype LaunchMode = Background | Foreground

  datatype VramMode = ExclusiveAuto | Shared

  datatype TaskSpec = TaskSpec(
    launchMode: LaunchMode,
    requireVramMb: int,
    requestedVramMb: Option<int>,
    vramMode: VramMode,
    requireGpuCount: int,
    autoObserveWindowSec: Option<int>,
    priority: int)

  datatype Task = Task(
    id: TaskId,
    status: TaskStatus,
    launchMode: LaunchMode,
    requireVramMb: int,
    requireGpuCount: int,
    requestedVramMb: Option<int>,
    vramMode: VramMode,
    priority: int,
    createdAt: real,
    reservedAt: Option<real>,
    startedAt: Option<real>,
    finishedAt: Option<real>,
    pid: Option<int>,
    assignedGpus: Option<seq<int>>,
    declaredVramPerGpu: Option<int>,
    autoObserveWindowSec: Option<int>,
    autoPeakMb: Option<map<int, int>>,
    autoReclaimedMb: Option<map<int, Option<int>>>,
    autoReclaimDone: bool,
    exitCode: Option<int>,
    endReason: Option<EndReason>,
    reportedSinceTerminal: bool,
    attachDeadline: Option<real>)

  /** One process on one GPU, together with the owner that /proc or psutil gave for it, if any. */
  datatype GpuProcess = GpuProcess(pid: int, gpuIndex: int, usedMb: real, owner: Option<string>)

  datatype GpuCard = GpuCard(index: int, totalMb: real, usedMb: real, utilization: real)

  datatype TaskAllocation = TaskAllocation(
    taskId: TaskId, gpuIndex: int, declaredMb: int, actualMb: real, exclusiveActive: bool, pid: Option<int>)

  datatype UserProcess = UserProcess(pid: int, user: string, gpuIndex: int, usedMb: real)

  datatype UnknownProcess = UnknownProcess(pid: int, gpuIndex: int, usedMb: real)

  datatype GpuSummary = GpuSummary(
    gpuIndex: int,
    totalMb: real,
    usedMb: real,
    pmeowTasks: seq<TaskAllocation>,
    userProcesses: seq<UserProcess>,
    unknownProcesses: seq<UnknownProcess>,
    utilization: real)

  /** The per-GPU part of one collected snapshot. */
  type Sample = seq<GpuSummary>

  /** A sample together with the time it was recorded under. */
  datatype TimedSample = TimedSample(timestamp: real, sample: Sample)

  predicate DistinctGpus(sample: Sample) {
    forall i, j :: 0 <= i < j < |sample| ==> sample[i].gpuIndex != sample[j].gpuIndex
  }
}
