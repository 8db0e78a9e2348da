/** What the alert detectors read: one report of a server, and the settings. */
module AlertInputs {
  import opened Basics

  datatype Settings = Settings(
    cpuThreshold: real,
    memoryThreshold: real,
    diskThreshold: real,
    gpuTempThreshold: real,
    diskMountPoints: seq<string>,
    thresholdDurationSeconds: Option<real>,
    idleMemoryPercent: real,
    idleUtilizationPercent: real,
    idleDurationSeconds: real)

  datatype DiskReport = DiskReport(mountPoint: string, filesystem: string, usagePercent: real)

  datatype AllocationReport = AllocationReport(
    taskId: string,
    declaredVramMb: real,
    actualVramMb: Option<real>,
    pid: Option<int>,
    user: Option<string>,
    command: Option<string>)

  datatype UserProcessReport = UserProcessReport(pid: int, user: string, vramMb: real)

  datatype CardReport = CardReport(
    index: int,
    name: string,
    temperature: real,
    utilization: real,
    memoryTotalMb: real,
    memoryUsedMb: real,
    allocations: seq<AllocationReport>,
    userProcesses: seq<UserProcessReport>)

  datatype Report = Report(cpuPercent: real, memoryPercent: real, disks: seq<DiskReport>, cards: seq<CardReport>)

  datatype ThresholdState = ThresholdState(isActive: bool, lastValue: real, firstBreachedAt: Option<int>)

  datatype TrackedProcess = TrackedProcess(
    firstSeenAt: int,
    lastSeenAt: int,
    gpuIndex: int,
    pid: int,
    user: string,
    command: string,
    taskId: Option<string>,
    vramMb: real,
    utilization: real,
    memoryPercent: real)

  /** The three kinds of values that share the store. */
  datatype Entry = OfThreshold(threshold: ThresholdState) | OfProcess(process: TrackedProcess) | OfKeys(keys: set<string>)

  /** Each kind of key holds its kind of value. */
  ghost predicate TypedAt(state: map<string, Entry>, key: string) {
    key in state ==>
      && ("threshold:" <= key ==> state[key].OfThreshold?)
      && ("gpu_idle:" <= key ==> state[key].OfProcess?)
      && ("gpu_idle_keys:" <= key ==> state[key].OfKeys?)
  }

  ghost predicate Typed(state: map<string, Entry>) {
    forall key :: TypedAt(state, key)
  }

  /** The first characters tell the three kinds of keys apart. */
  lemma {:induction false} KindsApart(key: string)
    ensures "threshold:" <= key ==> !("gpu_idle:" <= key) && !("gpu_idle_keys:" <= key)
    ensures "gpu_idle:" <= key ==> !("gpu_idle_keys:" <= key)
  {
    assert "threshold:" <= key ==> key[0] == 't';
    assert "gpu_idle:" <= key ==> key[0] == 'g' && key[8] == ':';
    assert "gpu_idle_keys:" <= key ==> key[0] == 'g' && key[8] == '_';
  }
}
