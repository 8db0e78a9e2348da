/** Dual-ledger admission: a GPU's declared memory of managed tasks, plus the windowed peak of
    unmanaged memory, decide which queued tasks may start. */
module Scheduling {
  import opened Basics
  import opened Models
  import opened Attribution
  import Sorting

  const CAPACITY_FACTOR: real := 0.98
  const UNMANAGED_MULTIPLIER: real := 1.05
  const IDLE_UTILIZATION_THRESHOLD: real := 3.0
  const IDLE_VRAM_UTILIZATION_THRESHOLD: real := 3.0

  // ---------------------------------------------------------------------------
  // Ledger
  // ---------------------------------------------------------------------------

  datatype Ledger = Ledger(
    gpuIndex: int,
    totalMb: real,
    schedulableMb: real,
    managedMb: real,
    exclusiveOwner: bool,
    unmanagedPeakMb: real,
    utilization: real,
    vramUtilization: real,
    effectiveFreeMb: real)

  function UnmanagedMb(gpu: GpuSummary): real {
    UserMb(gpu.userProcesses) + UnknownMb(gpu.unknownProcesses)
  }

  /** The largest unmanaged memory of GPU `idx` in the given summaries, and at least zero. */
  function Peak(seen: seq<GpuSummary>, idx: int): (p: real)
    ensures p >= 0.0
  {
    if seen == [] then 0.0
    else
      var before := Peak(Init(seen), idx);
      if Last(seen).gpuIndex == idx && UnmanagedMb(Last(seen)) > before then UnmanagedMb(Last(seen)) else before
  }

  function Flat(history: seq<TimedSample>): seq<GpuSummary> {
    if history == [] then [] else Flat(Init(history)) + Last(history).sample
  }

  /** Declared memory of the listed tasks, counting positive declarations only. */
  function ManagedMb(tasks: seq<TaskAllocation>): (n: int)
    ensures n >= 0
  {
    if tasks == [] then 0 else ManagedMb(Init(tasks)) + (if Last(tasks).declaredMb > 0 then Last(tasks).declaredMb else 0)
  }

  predicate HasOwner(gpu: GpuSummary) {
    exists k :: 0 <= k < |gpu.pmeowTasks| && gpu.pmeowTasks[k].exclusiveActive
  }

  function UsedPercent(mb: real, totalMb: real): real {
    if totalMb > 0.0 then mb / totalMb * 100.0 else 0.0
  }

  /** Reservations made earlier in the same batch. */
  datatype Pending = Pending(shared: map<int, real>, exclusive: set<int>)

  const NO_PENDING: Pending := Pending(map[], {})

  function LedgerOf(gpu: GpuSummary, seen: seq<GpuSummary>, pending: Pending): Ledger {
    var schedulable := gpu.totalMb * CAPACITY_FACTOR;
    var managed := ManagedMb(gpu.pmeowTasks) as real + MapGet(pending.shared, gpu.gpuIndex);
    var peak := Peak(seen, gpu.gpuIndex) * UNMANAGED_MULTIPLIER;
    Ledger(gpu.gpuIndex, gpu.totalMb, schedulable, managed,
           HasOwner(gpu) || gpu.gpuIndex in pending.exclusive,
           peak, gpu.utilization, UsedPercent(gpu.usedMb, gpu.totalMb),
           MaxReal(0.0, schedulable - managed - peak))
  }

  function Ledgers(current: Sample, history: seq<TimedSample>, pending: Pending): (r: seq<Ledger>)
    ensures |r| == |current|
    ensures forall i :: 0 <= i < |r| ==> r[i] == LedgerOf(current[i], Flat(history) + current, pending)
  {
    seq(|current|, i requires 0 <= i < |current| => LedgerOf(current[i], Flat(history) + current, pending))
  }

  // ---------------------------------------------------------------------------
  // Eligibility
  // ---------------------------------------------------------------------------

  datatype Request = SharedMb(mb: int) | WholeGpu

  function RequestOf(t: Task): Request {
    if t.vramMode.ExclusiveAuto? then WholeGpu else SharedMb(t.requestedVramMb.GetOr(t.requireVramMb))
  }

  /** No managed task and little unmanaged memory. The summary's overall use is computed by the source and ignored. */
  predicate IdleInSample(gpu: GpuSummary) {
    gpu.pmeowTasks == [] && UsedPercent(UnmanagedMb(gpu), gpu.totalMb) < IDLE_VRAM_UTILIZATION_THRESHOLD
  }

  function FirstFor(sample: Sample, idx: int): Option<GpuSummary> {
    if sample == [] then None else if sample[0].gpuIndex == idx then Some(sample[0]) else FirstFor(sample[1..], idx)
  }

  predicate IdleIfPresent(sample: Sample, idx: int) {
    FirstFor(sample, idx).None? || IdleInSample(FirstFor(sample, idx).value)
  }

  predicate EligibleShared(l: Ledger, mb: int) {
    !l.exclusiveOwner && l.effectiveFreeMb >= mb as real
  }

  predicate EligibleExclusive(l: Ledger, history: seq<TimedSample>, current: Sample) {
    && !l.exclusiveOwner
    && !(l.managedMb > 0.0)
    && l.utilization < IDLE_UTILIZATION_THRESHOLD
    && l.vramUtilization < IDLE_VRAM_UTILIZATION_THRESHOLD
    && (forall i :: 0 <= i < |history| ==> IdleIfPresent(history[i].sample, l.gpuIndex))
    && IdleIfPresent(current, l.gpuIndex)
  }

  predicate Fits(l: Ledger, request: Request, history: seq<TimedSample>, current: Sample) {
    match request
    case SharedMb(mb) => EligibleShared(l, mb)
    case WholeGpu => EligibleExclusive(l, history, current)
  }

  function Eligible(ledgers: seq<Ledger>, request: Request, history: seq<TimedSample>,
        current: Sample): (r: seq<Ledger>)
    ensures |r| <= |ledgers|
    ensures forall l :: l in r <==> l in ledgers && Fits(l, request, history, current)
  {
    if ledgers == [] then []
    else
      var rest := Eligible(ledgers[1..], request, history, current);
      if Fits(ledgers[0], request, history, current) then [ledgers[0]] + rest else rest
  }

  predicate MoreFree(a: Ledger, b: Ledger) {
    a.effectiveFreeMb >= b.effectiveFreeMb
  }

  /** Python's `s[:n]`, which for a negative `n` drops elements from the end. */
  function SliceTo<T>(s: seq<T>, n: int): (r: seq<T>)
    ensures r <= s
    ensures 0 <= n <= |s| ==> |r| == n
  {
    if n > |s| then s else if n >= 0 then s[..n] else if |s| + n >= 0 then s[..|s| + n] else []
  }

  function GpuIds(ledgers: seq<Ledger>): (r: seq<int>)
    ensures |r| == |ledgers| && forall i :: 0 <= i < |r| ==> r[i] == ledgers[i].gpuIndex
  {
    seq(|ledgers|, i requires 0 <= i < |ledgers| => ledgers[i].gpuIndex)
  }

  /** The GPUs for one task: the eligible ones with the most free memory, or none if there are too few. */
  function Pick(ledgers: seq<Ledger>, request: Request, count: int, history: seq<TimedSample>,
        current: Sample): Option<seq<int>> {
    var eligible := Eligible(ledgers, request, history, current);
    if |eligible| < count then None
    else Some(GpuIds(SliceTo(Sorting.StableSort(eligible, MoreFree), count)))
  }

  // ---------------------------------------------------------------------------
  // One batch
  // ---------------------------------------------------------------------------

  datatype Reason = Scheduled | BlockedByHigherPriority | InsufficientGpuCount | SustainedWindowNotSatisfied

  datatype Evaluation = Evaluation(
    taskId: TaskId, canRun: bool, reason: Reason, gpuIds: seq<int>, eligible: seq<int>, blockers: seq<TaskId>)

  datatype Decision = Decision(taskId: TaskId, gpuIds: seq<int>)

  datatype Batch = Batch(pending: Pending, prior: seq<TaskId>)

  const EMPTY_BATCH: Batch := Batch(NO_PENDING, [])

  /** What the scheduler sees of the node. */
  datatype View = View(current: Sample, history: seq<TimedSample>) {
    function LedgersWith(pending: Pending): seq<Ledger> {
      Ledgers(current, history, pending)
    }

    function EligibleFor(t: Task, pending: Pending): seq<Ledger> {
      Eligible(LedgersWith(pending), RequestOf(t), history, current)
    }

    function PickFor(t: Task, pending: Pending): Option<seq<int>> {
      Pick(LedgersWith(pending), RequestOf(t), t.requireGpuCount, history, current)
    }
  }

  function Evaluate(t: Task, view: View, batch: Batch): Evaluation {
    var picked := view.PickFor(t, batch.pending);
    var eligible := GpuIds(view.EligibleFor(t, batch.pending));
    if picked.Some? then Evaluation(t.id, true, Scheduled, picked.value, eligible, batch.prior)
    else
      var reason :=
        if view.PickFor(t, NO_PENDING).Some? && batch.prior != [] then BlockedByHigherPriority
        else if |eligible| < t.requireGpuCount then InsufficientGpuCount
        else SustainedWindowNotSatisfied;
      Evaluation(t.id, false, reason, [], eligible, batch.prior)
  }

  function AddShared(m: map<int, real>, gpus: seq<int>, mb: real): map<int, real> {
    if gpus == [] then m
    else
      var before := AddShared(m, Init(gpus), mb);
      before[Last(gpus) := MapGet(before, Last(gpus)) + mb]
  }

  function Reserving(pending: Pending, t: Task, gpus: seq<int>): Pending {
    match RequestOf(t)
    case WholeGpu => pending.(exclusive := pending.exclusive + set g | g in gpus)
    case SharedMb(mb) => pending.(shared := AddShared(pending.shared, gpus, mb as real))
  }

  function After(t: Task, e: Evaluation, batch: Batch): Batch {
    if e.canRun then Batch(Reserving(batch.pending, t, e.gpuIds), batch.prior + [t.id]) else batch
  }

  function Schedule(tasks: seq<Task>, view: View, batch: Batch): (r: seq<Evaluation>)
    ensures |r| == |tasks|
  {
    if tasks == [] then []
    else
      var e := Evaluate(tasks[0], view, batch);
      [e] + Schedule(tasks[1..], view, After(tasks[0], e, batch))
  }

  function Decisions(evaluations: seq<Evaluation>): seq<Decision> {
    if evaluations == [] then []
    else
      var rest := Decisions(evaluations[1..]);
      if evaluations[0].canRun then [Decision(evaluations[0].taskId, evaluations[0].gpuIds)] + rest else rest
  }

  // ---------------------------------------------------------------------------
  // Submit-time check
  // ---------------------------------------------------------------------------

  function Capable(perGpu: Sample, mb: int): nat {
    if perGpu == [] then 0
    else (if perGpu[0].totalMb * CAPACITY_FACTOR >= mb as real then 1 else 0) + Capable(perGpu[1..], mb)
  }

  /** Whether a request could ever fit on the node; the source returns the error text when it could not. */
  predicate RequestPossible(perGpu: Sample, count: int, mb: int, mode: VramMode) {
    && count <= |perGpu|
    && (mode.Shared? && mb > 0 ==> Capable(perGpu, mb) >= count)
  }
}
