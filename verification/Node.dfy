/** The agent as a state machine: the locked operations of the daemon, and the collection cycle in two steps, the
    snapshot and then the locked rest, between which other operations may run. */
module Node {
  import opened Basics
  import opened Models
  import opened OrderedDicts
  import opened QueueSpec
  import Attribution
  import History
  import Reclaim
  import Scheduling

  datatype Config = Config(historyWindow: real, attachTimeout: real)

  datatype NodeState = NodeState(
    q: QueueState,
    lastPerGpu: Option<Sample>,
    samples: seq<TimedSample>,
    inFlight: Option<TimedSample>)

  const INITIAL := NodeState(EMPTY_QUEUE, None, [], None)

  // ---------------------------------------------------------------------------
  // Submission
  // ---------------------------------------------------------------------------

  datatype SubmitError = CanNeverFit | NegativeVram | ExclusiveWithVram | SharedWithoutVram

  function Normalized(spec: TaskSpec): TaskSpec {
    if spec.vramMode.ExclusiveAuto? then spec.(requestedVramMb := None, requireVramMb := 0)
    else
      var requested := spec.requestedVramMb.GetOr(spec.requireVramMb);
      spec.(requestedVramMb := Some(requested), requireVramMb := requested)
  }

  function SpecError(spec: TaskSpec): Option<SubmitError> {
    if spec.requestedVramMb.Some? && spec.requestedVramMb.value < 0 then Some(NegativeVram)
    else if spec.vramMode.ExclusiveAuto? && spec.requestedVramMb.Some? then Some(ExclusiveWithVram)
    else if spec.vramMode.Shared? && spec.requestedVramMb.None? then Some(SharedWithoutVram)
    else None
  }

  function SubmitErrorOf(s: NodeState, spec: TaskSpec): Option<SubmitError> {
    var n := Normalized(spec);
    if s.lastPerGpu.Some? && s.lastPerGpu.value != []
      && !Scheduling.RequestPossible(s.lastPerGpu.value, n.requireGpuCount, n.requireVramMb, n.vramMode) then Some(CanNeverFit)
    else SpecError(n)
  }

  /** Once a spec is normalised only two refusals are left: a request the cards can never hold, and a negative one. */
  lemma {:induction false} OnlyTwoErrors(s: NodeState, spec: TaskSpec)
    ensures SubmitErrorOf(s, spec) in {None, Some(CanNeverFit), Some(NegativeVram)}
    ensures SubmitErrorOf(s, spec) == Some(NegativeVram) ==>
      spec.vramMode.Shared? && spec.requestedVramMb.GetOr(spec.requireVramMb) < 0
  {
  }

  // ---------------------------------------------------------------------------
  // The collection cycle
  // ---------------------------------------------------------------------------

  function CardTable(cards: seq<GpuCard>, value: GpuCard -> real): map<int, real> {
    if cards == [] then map[]
    else CardTable(Init(cards), value)[Last(cards).index := value(Last(cards))]
  }

  function Readings(cards: seq<GpuCard>): Attribution.NodeReadings {
    Attribution.NodeReadings(
      CardTable(cards, (c: GpuCard) => c.totalMb),
      Some(CardTable(cards, (c: GpuCard) => c.usedMb)),
      Some(CardTable(cards, (c: GpuCard) => c.utilization)))
  }

  /** The tasks that attribution looks at: running first, then reserved. */
  function GpuTasks(q: QueueState): seq<Task>
    requires QueueInv(q)
  {
    q.running.Values() + q.reserved.Values()
  }

  function SampleOf(q: QueueState, cards: seq<GpuCard>, procs: seq<GpuProcess>): Sample
    requires QueueInv(q)
  {
    if cards == [] then [] else Attribution.Attributed(procs, GpuTasks(q), Readings(cards))
  }

  function ReclaimAll(q: QueueState, perGpu: Sample, now: real): (r: QueueState)
    requires QueueInv(q)
    ensures QueueInv(r)
  {
    q.(running := OrderedDict(q.running.order, map k | k in q.running.vals :: Reclaim.Updated(q.running.vals[k], perGpu, now)))
  }

  /** Applies the decisions in order. A background launch that fails leaves its task reserved and ends the cycle. */
  function Launch(q: QueueState, decisions: seq<Scheduling.Decision>, pids: map<TaskId, int>, clock: real, cfg: Config)
    : (r: (QueueState, bool))
    requires QueueInv(q)
    ensures QueueInv(r.0)
    decreases |decisions|
  {
    if decisions == [] then (q, true)
    else
      var d := decisions[0];
      if d.taskId !in q.Ids() then Launch(q, decisions[1..], pids, clock, cfg)
      else if d.taskId !in q.queued.vals then (q, false)
      else if q.queued.vals[d.taskId].launchMode.Foreground? then
        Launch(Reserve(q, d.taskId, d.gpuIds, Some(clock + cfg.attachTimeout), clock), decisions[1..], pids, clock, cfg)
      else
        var reserved := Reserve(q, d.taskId, d.gpuIds, None, clock);
        if d.taskId !in pids then (reserved, false)
        else Launch(Start(reserved, d.taskId, pids[d.taskId], clock), decisions[1..], pids, clock, cfg)
  }

  /** What the outside world contributes to the locked part of a cycle: the exits the runner saw, the two clock
      readings, and the pid of each launch that succeeds. */
  datatype CycleInput = CycleInput(exits: seq<Completion>, now: real, clock: real, pids: map<TaskId, int>)

  /** The queue after the exits, the tick and the reclaim. */
  function Settled(q: QueueState, exits: seq<Completion>, perGpu: Sample, now: real): (r: QueueState)
    requires QueueInv(q)
    ensures QueueInv(r)
  {
    ReclaimAll(Tick(q.(completions := q.completions + exits)).0, perGpu, now)
  }

  function BeforeScheduling(s: NodeState, input: CycleInput): (r: QueueState)
    requires QueueInv(s.q) && s.inFlight.Some?
    ensures QueueInv(r)
  {
    Settled(s.q, input.exits, s.inFlight.value.sample, input.now)
  }

  /** The stored history once the cycle has recorded its snapshot. */
  function StoredHistory(s: NodeState, cfg: Config): seq<TimedSample>
    requires s.inFlight.Some?
  {
    History.Since(s.samples + [s.inFlight.value], s.inFlight.value.timestamp - cfg.historyWindow)
  }

  function ViewOn(perGpu: Sample, samples: seq<TimedSample>, clock: real, cfg: Config): Scheduling.View {
    Scheduling.View(perGpu, History.Since(samples, clock - cfg.historyWindow))
  }

  function ViewOf(s: NodeState, input: CycleInput, cfg: Config): Scheduling.View
    requires s.inFlight.Some?
  {
    ViewOn(s.inFlight.value.sample, StoredHistory(s, cfg), input.clock, cfg)
  }

  /** What is decided for the queued tasks of `q`. */
  function DecisionsOn(q: QueueState, view: Scheduling.View): seq<Scheduling.Decision>
    requires QueueInv(q)
  {
    Scheduling.Decisions(Scheduling.Schedule(q.queued.Values(), view, Scheduling.EMPTY_BATCH))
  }

  function DecisionsOf(s: NodeState, input: CycleInput, cfg: Config): seq<Scheduling.Decision>
    requires QueueInv(s.q) && s.inFlight.Some?
  {
    DecisionsOn(BeforeScheduling(s, input), ViewOf(s, input, cfg))
  }

  function Launched(s: NodeState, input: CycleInput, cfg: Config): (r: (QueueState, bool))
    requires QueueInv(s.q) && s.inFlight.Some?
    ensures QueueInv(r.0)
  {
    Launch(BeforeScheduling(s, input), DecisionsOf(s, input, cfg), input.pids, input.clock, cfg)
  }

  /** The state after a cycle whose launches left the queue `q`. A cycle that was cut short reports nothing. */
  function Concluded(s: NodeState, q: QueueState, completed: bool, cfg: Config): (r: NodeState)
    requires QueueInv(q) && s.inFlight.Some?
    ensures QueueInv(r.q)
  {
    NodeState(if completed then MarkReported(q) else q, Some(s.inFlight.value.sample), StoredHistory(s, cfg), None)
  }

  function Cycle(s: NodeState, input: CycleInput, cfg: Config): (r: NodeState)
    requires QueueInv(s.q) && s.inFlight.Some?
    ensures QueueInv(r.q)
  {
    Concluded(s, Launched(s, input, cfg).0, Launched(s, input, cfg).1, cfg)
  }

  // ---------------------------------------------------------------------------
  // Steps
  // ---------------------------------------------------------------------------

  datatype Step =
    | SubmitStep(spec: TaskSpec, id: TaskId, now: real)
    | PriorityStep(id: TaskId, priority: int)
    | CancelStep(id: TaskId, now: real)
    | ConfirmStep(id: TaskId, pid: int, now: real)
    | FinishStep(id: TaskId, exitCode: int, now: real)
    | FailStep(id: TaskId, now: real)
    | MonitorStep(observation: RuntimeObservation)
    | SnapshotStep(cards: seq<GpuCard>, procs: seq<GpuProcess>, timestamp: real)
    | CycleStep(input: CycleInput)

  function Do(s: NodeState, step: Step, cfg: Config): (r: NodeState)
    requires QueueInv(s.q)
    requires step.SubmitStep? ==> step.id !in s.q.Ids()
    ensures QueueInv(r.q)
  {
    match step
    case SubmitStep(spec, id, now) =>
      if SubmitErrorOf(s, spec).Some? then s else s.(q := Submit(s.q, Normalized(spec), id, now))
    case PriorityStep(id, priority) => s.(q := SetPriority(s.q, id, priority))
    case CancelStep(id, now) => s.(q := Cancel(s.q, id, now))
    case ConfirmStep(id, pid, now) => if id in s.q.reserved.vals then s.(q := Start(s.q, id, pid, now)) else s
    case FinishStep(id, exitCode, now) =>
      if s.q.Get(id).Some? && s.q.Get(id).value.launchMode.Foreground? then
        s.(q := Tick(s.q.(completions := s.q.completions + [Completion(id, exitCode, now)])).0)
      else s
    case FailStep(id, now) =>
      if id in s.q.reserved.vals && s.q.reserved.vals[id].launchMode.Foreground? then
        s.(q := Tick(s.q.(runtimes := s.q.runtimes + [RuntimeObservation(id, LaunchFailed, now)])).0)
      else s
    case MonitorStep(o) => s.(q := s.q.(runtimes := s.q.runtimes + [o]))
    case SnapshotStep(cards, procs, timestamp) => s.(inFlight := Some(TimedSample(timestamp, SampleOf(s.q, cards, procs))))
    case CycleStep(input) => if s.inFlight.Some? then Cycle(s, input, cfg) else s
  }
}
