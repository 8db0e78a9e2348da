/** The daemon's locked operations as they run: they update the queue, the history and the last sample in place.
    Each does to the node exactly what its step in Node says. */
module Daemon {
  import opened Basics
  import opened Models
  import opened OrderedDicts
  import opened QueueSpec
  import opened Node
  import opened Reclaim
  import opened TaskQueues
  import Attribution
  import History
  import Scheduler
  import Scheduling

  // ---------------------------------------------------------------------------
  // The reclaim's tables
  // ---------------------------------------------------------------------------

  function Entry<K, V>(m: map<K, V>, k: K): Option<V> {
    if k in m then Some(m[k]) else None
  }

  ghost predicate ActualAt(actual: map<(TaskId, int), real>, perGpu: Sample, id: TaskId, g: int) {
    Entry(actual, (id, g)) == ActualMb(perGpu, id, g)
  }

  ghost predicate TotalAt(totals: map<int, real>, perGpu: Sample, g: int) {
    Attribution.MapGet(totals, g) == TotalMb(perGpu, g)
  }

  /** The table while the entries of `gpu` listed in `seen` have been written over those of `before`. */
  ghost predicate PartAt(actual: map<(TaskId, int), real>, before: Sample, gpu: int, seen: seq<TaskAllocation>,
        id: TaskId, g: int) {
    Entry(actual, (id, g)) ==
      if g == gpu && LastIn(seen, id).Some? then LastIn(seen, id) else ActualMb(before, id, g)
  }

  method AddAllocations(actual0: map<(TaskId, int), real>, ghost before: Sample, gpu: GpuSummary)
    returns (actual: map<(TaskId, int), real>)
    requires forall id, g :: ActualAt(actual0, before, id, g)
    ensures forall id, g :: ActualAt(actual, before + [gpu], id, g)
  {
    actual := actual0;
    var entries := gpu.pmeowTasks;
    forall id, g
      ensures PartAt(actual, before, gpu.gpuIndex, entries[..0], id, g)
    {
      assert ActualAt(actual0, before, id, g);
    }
    for n := 0 to |entries|
      invariant forall id, g :: PartAt(actual, before, gpu.gpuIndex, entries[..n], id, g)
    {
      ghost var was, seen := actual, entries[..n + 1];
      actual := actual[(entries[n].taskId, gpu.gpuIndex) := entries[n].actualMb];
      assert seen == entries[..n] + [entries[n]];
      InitSnoc(entries[..n], entries[n]);
      forall id, g
        ensures PartAt(actual, before, gpu.gpuIndex, seen, id, g)
      {
        assert PartAt(was, before, gpu.gpuIndex, entries[..n], id, g);
      }
    }
    assert entries[..|entries|] == entries;
    InitSnoc(before, gpu);
    forall id, g
      ensures ActualAt(actual, before + [gpu], id, g)
    {
      assert PartAt(actual, before, gpu.gpuIndex, entries, id, g);
    }
  }

  /** What each task used on each GPU, and each card's total. */
  method ReadSample(perGpu: Sample) returns (actual: map<(TaskId, int), real>, totals: map<int, real>)
    ensures forall id, g :: ActualAt(actual, perGpu, id, g)
    ensures forall g :: TotalAt(totals, perGpu, g)
  {
    actual, totals := map[], map[];
    assert forall id, g :: ActualAt(actual, [], id, g);
    assert forall g :: TotalAt(totals, [], g);
    for n := 0 to |perGpu|
      invariant forall id, g :: ActualAt(actual, perGpu[..n], id, g)
      invariant forall g :: TotalAt(totals, perGpu[..n], g)
    {
      ghost var was, seen := totals, perGpu[..n + 1];
      totals := totals[perGpu[n].gpuIndex := perGpu[n].totalMb];
      actual := AddAllocations(actual, perGpu[..n], perGpu[n]);
      assert seen == perGpu[..n] + [perGpu[n]];
      InitSnoc(perGpu[..n], perGpu[n]);
      forall g
        ensures TotalAt(totals, seen, g)
      {
        assert TotalAt(was, perGpu[..n], g);
      }
    }
    assert perGpu[..|perGpu|] == perGpu;
  }

  // ---------------------------------------------------------------------------
  // One running task
  // ---------------------------------------------------------------------------

  method ObservePeaks(task: Task, actual: map<(TaskId, int), real>, ghost perGpu: Sample) returns (peaks: map<int, int>)
    requires forall id, g :: ActualAt(actual, perGpu, id, g)
    ensures peaks == ObserveAll(task.autoPeakMb.GetOr(map[]), task.assignedGpus.GetOr([]), task.id, perGpu)
  {
    peaks := task.autoPeakMb.GetOr(map[]);
    var gpus := task.assignedGpus.GetOr([]);
    for n := 0 to |gpus|
      invariant peaks == ObserveAll(task.autoPeakMb.GetOr(map[]), gpus[..n], task.id, perGpu)
    {
      var g := gpus[n];
      assert ActualAt(actual, perGpu, task.id, g);
      assert gpus[..n + 1] == gpus[..n] + [g];
      InitSnoc(gpus[..n], g);
      if (task.id, g) in actual {
        var observed := Ceil(actual[(task.id, g)]);
        if observed > PeakOn(peaks, g) {
          peaks := peaks[g := observed];
        }
      }
    }
    assert gpus[..|gpus|] == gpus;
  }

  method FinishReclaim(task: Task, totals: map<int, real>, ghost perGpu: Sample) returns (done: Task)
    requires forall g :: TotalAt(totals, perGpu, g)
    ensures done == Finished(task, perGpu)
  {
    var peaks := task.autoPeakMb.GetOr(map[]);
    var gpus := task.assignedGpus.GetOr([]);
    var reclaimed: map<int, Option<int>> := map[];
    for n := 0 to |gpus|
      invariant reclaimed == ReclaimedMap(gpus[..n], peaks, perGpu)
    {
      var g := gpus[n];
      assert TotalAt(totals, perGpu, g);
      assert gpus[..n + 1] == gpus[..n] + [g];
      InitSnoc(gpus[..n], g);
      if g !in peaks {
        reclaimed := reclaimed[g := None];
        continue;
      }
      var totalMb := Attribution.MapGet(totals, g);
      var threshold := totalMb * AUTO_RECLAIM_THRESHOLD_RATIO;
      if totalMb <= 0.0 || peaks[g] as real >= threshold {
        reclaimed := reclaimed[g := None];
        continue;
      }
      var reserved := Ceil(MaxReal(peaks[g] as real * AUTO_RECLAIM_MULTIPLIER, (peaks[g] + AUTO_RECLAIM_MARGIN_MB) as real));
      reclaimed := reclaimed[g := Some(reserved)];
    }
    assert gpus[..|gpus|] == gpus;
    done := task.(autoReclaimedMb := Some(reclaimed), autoReclaimDone := true);
  }

  method UpdateTask(task0: Task, actual: map<(TaskId, int), real>, totals: map<int, real>, ghost perGpu: Sample,
        now: real)
    returns (task: Task)
    requires forall id, g :: ActualAt(actual, perGpu, id, g)
    requires forall g :: TotalAt(totals, perGpu, g)
    ensures task == Updated(task0, perGpu, now)
  {
    task := task0;
    if !task.vramMode.ExclusiveAuto? { return; }
    if task.autoReclaimDone { return; }
    if task.assignedGpus.GetOr([]) == [] || task.startedAt.None? { return; }
    if task.autoObserveWindowSec.None? {
      task := task.(autoObserveWindowSec := Some(DEFAULT_AUTO_OBSERVE_WINDOW_SEC));
    }
    var peaks := ObservePeaks(task, actual, perGpu);
    task := task.(autoPeakMb := Some(peaks));
    assert task == Observed(task0, perGpu);
    if now >= task.startedAt.value + task.autoObserveWindowSec.value as real {
      task := FinishReclaim(task, totals, perGpu);
    }
  }

  /** The first `n` running tasks have been updated. */
  ghost predicate UpdatedUpTo(d: OrderedDict<Task>, vals: map<TaskId, Task>, n: nat, perGpu: Sample, now: real)
    requires d.Valid() && n <= |d.order|
  {
    && vals.Keys == d.vals.Keys
    && forall k :: k in vals ==> vals[k] == if k in d.order[..n] then Updated(d.vals[k], perGpu, now) else d.vals[k]
  }

  lemma {:induction false} UpdateStep(d: OrderedDict<Task>, vals: map<TaskId, Task>, n: nat, perGpu: Sample, now: real)
    requires d.Valid() && n < |d.order| && UpdatedUpTo(d, vals, n, perGpu, now)
    ensures d.order[n] in vals && vals[d.order[n]] == d.vals[d.order[n]]
    ensures UpdatedUpTo(d, vals[d.order[n] := Updated(d.vals[d.order[n]], perGpu, now)], n + 1, perGpu, now)
  {
    FreshAt(d.order, n);
    assert d.order[..n + 1] == d.order[..n] + [d.order[n]];
  }

  // ---------------------------------------------------------------------------
  // One decision
  // ---------------------------------------------------------------------------

  /** The effect of one decision, and whether the cycle goes on. */
  function LaunchOne(q: QueueState, d: Scheduling.Decision, pids: map<TaskId, int>, clock: real, cfg: Config)
    : (r: (QueueState, bool))
    requires QueueInv(q)
    ensures QueueInv(r.0)
  {
    if d.taskId !in q.Ids() then (q, true)
    else if d.taskId !in q.queued.vals then (q, false)
    else if q.queued.vals[d.taskId].launchMode.Foreground? then
      (Reserve(q, d.taskId, d.gpuIds, Some(clock + cfg.attachTimeout), clock), true)
    else
      var reserved := Reserve(q, d.taskId, d.gpuIds, None, clock);
      if d.taskId !in pids then (reserved, false) else (Start(reserved, d.taskId, pids[d.taskId], clock), true)
  }

  lemma {:induction false} LaunchFrom(q: QueueState, ds: seq<Scheduling.Decision>, n: nat, pids: map<TaskId, int>,
        clock: real, cfg: Config)
    requires QueueInv(q) && n < |ds|
    ensures var r := LaunchOne(q, ds[n], pids, clock, cfg);
      Launch(q, ds[n..], pids, clock, cfg) == if r.1 then Launch(r.0, ds[n + 1..], pids, clock, cfg) else r
  {
    assert ds[n..][1..] == ds[n + 1..];
  }

  /** The cycle in terms of what its parts did. */
  lemma {:induction false} CycleEnds(s: NodeState, input: CycleInput, cfg: Config, q: QueueState, completed: bool)
    requires QueueInv(s.q) && s.inFlight.Some?
    requires var perGpu := s.inFlight.value.sample;
      var before := Settled(s.q, input.exits, perGpu, input.now);
      var ds := DecisionsOn(before, ViewOn(perGpu, StoredHistory(s, cfg), input.clock, cfg));
      && q == Launch(before, ds, input.pids, input.clock, cfg).0
      && completed == Launch(before, ds, input.pids, input.clock, cfg).1
    ensures QueueInv(q) && Cycle(s, input, cfg) == Concluded(s, q, completed, cfg)
  {
    assert q == Launched(s, input, cfg).0 && completed == Launched(s, input, cfg).1;
  }

  /** Scheduling nothing decides nothing. */
  lemma {:induction false} NothingQueued(q: QueueState, view: Scheduling.View)
    requires QueueInv(q) && q.queued.Values() == []
    ensures DecisionsOn(q, view) == []
  {
  }

  // ---------------------------------------------------------------------------
  // The service
  // ---------------------------------------------------------------------------

  class DaemonService {
    const cfg: Config
    const queue: TaskQueue
    const history: History.GpuHistoryTracker
    const scheduler: Scheduler.QueueScheduler
    var lastPerGpu: Option<Sample>
    /** The snapshot that the collecting thread holds until it takes the lock. */
    var inFlight: Option<TimedSample>

    ghost predicate Valid()
      reads this, queue, history
    {
      && queue.Valid()
      && history.windowSeconds == cfg.historyWindow
      && scheduler.history == history
    }

    ghost function State(): NodeState
      reads this, queue, history
    {
      NodeState(queue.State(), lastPerGpu, history.samples, inFlight)
    }

    constructor (cfg: Config)
      ensures Valid() && State() == INITIAL && this.cfg == cfg
      ensures fresh(queue) && fresh(history)
    {
      this.cfg := cfg;
      var q := new TaskQueue();
      var h := new History.GpuHistoryTracker(cfg.historyWindow);
      queue, history := q, h;
      var s := new Scheduler.QueueScheduler(h);
      scheduler := s;
      lastPerGpu, inFlight := None, None;
    }

    /** Refuses with an error, or queues the normalised task. */
    method SubmitTask(spec: TaskSpec, id: TaskId, now: real) returns (error: Option<SubmitError>)
      requires Valid() && id !in State().q.Ids()
      modifies queue
      ensures Valid() && State() == Do(old(State()), SubmitStep(spec, id, now), cfg)
      ensures error == SubmitErrorOf(old(State()), spec)
    {
      var normalized := Normalized(spec);
      if lastPerGpu.Some? && lastPerGpu.value != [] {
        var possible := Scheduling.RequestPossible(
          lastPerGpu.value, normalized.requireGpuCount, normalized.requireVramMb, normalized.vramMode);
        if !possible {
          return Some(CanNeverFit);
        }
      }
      error := SpecError(normalized);
      if error.Some? {
        return;
      }
      var _ := queue.Submit(normalized, id, now);
    }

    method CancelTask(id: TaskId, now: real) returns (found: bool)
      requires Valid()
      modifies queue
      ensures Valid() && State() == Do(old(State()), CancelStep(id, now), cfg)
      ensures found <==> id in old(State()).q.Ids()
    {
      found := queue.Cancel(id, now);
    }

    method SetTaskPriority(id: TaskId, priority: int) returns (updated: bool)
      requires Valid()
      modifies queue
      ensures Valid() && State() == Do(old(State()), PriorityStep(id, priority), cfg)
      ensures updated <==> id in old(State()).q.queued.vals
    {
      updated := queue.SetPriority(id, priority);
    }

    method ConfirmForegroundLaunch(id: TaskId, pid: int, now: real) returns (confirmed: bool)
      requires Valid()
      modifies queue
      ensures Valid() && State() == Do(old(State()), ConfirmStep(id, pid, now), cfg)
      ensures confirmed <==> id in old(State()).q.reserved.vals
    {
      var task := queue.Get(id);
      if task.None? || !task.value.status.Reserved? {
        return false;
      }
      queue.Start(id, pid, now);
      return true;
    }

    method FinishForegroundTask(id: TaskId, exitCode: int, now: real) returns (accepted: bool)
      requires Valid()
      modifies queue
      ensures Valid() && State() == Do(old(State()), FinishStep(id, exitCode, now), cfg)
      ensures accepted <==> old(State()).q.Get(id).Some? && old(State()).q.Get(id).value.launchMode.Foreground?
    {
      var task := queue.Get(id);
      if task.None? || !task.value.launchMode.Foreground? {
        return false;
      }
      queue.PushCompletion(Completion(id, exitCode, now));
      var _ := queue.Tick();
      return true;
    }

    method FailForegroundLaunch(id: TaskId, now: real) returns (accepted: bool)
      requires Valid()
      modifies queue
      ensures Valid() && State() == Do(old(State()), FailStep(id, now), cfg)
      ensures accepted <==> id in old(State()).q.reserved.vals && old(State()).q.reserved.vals[id].launchMode.Foreground?
    {
      var task := queue.Get(id);
      if task.None? || !task.value.launchMode.Foreground? || !task.value.status.Reserved? {
        return false;
      }
      queue.PushRuntime(RuntimeObservation(id, LaunchFailed, now));
      var _ := queue.Tick();
      return true;
    }

    /** One observation of the runtime monitor, whatever it is. */
    method Monitor(observation: RuntimeObservation)
      requires Valid()
      modifies queue
      ensures Valid() && State() == Do(old(State()), MonitorStep(observation), cfg)
    {
      queue.PushRuntime(observation);
    }

    /** The first half of a cycle, outside the lock. */
    method CollectSnapshot(cards: seq<GpuCard>, procs: seq<GpuProcess>, timestamp: real)
      requires Valid()
      modifies `inFlight
      ensures Valid() && State() == Do(old(State()), SnapshotStep(cards, procs, timestamp), cfg)
    {
      var perGpu: Sample := [];
      if cards != [] {
        perGpu := Attribution.AttributeGpuProcesses(
          procs, queue.running.Values() + queue.reserved.Values(), Readings(cards));
      }
      inFlight := Some(TimedSample(timestamp, perGpu));
    }

    method UpdateAutoVramReclaim(perGpu: Sample, now: real)
      requires Valid()
      modifies queue`running
      ensures Valid() && queue.State() == ReclaimAll(old(queue.State()), perGpu, now)
    {
      var actual, totals := ReadSample(perGpu);
      ghost var d := queue.running;
      var ids := queue.running.order;
      assert ids[..0] == [];
      for n := 0 to |ids|
        invariant queue.running.order == ids
        invariant UpdatedUpTo(d, queue.running.vals, n, perGpu, now)
      {
        UpdateStep(d, queue.running.vals, n, perGpu, now);
        var task := UpdateTask(queue.running.vals[ids[n]], actual, totals, perGpu, now);
        queue.running := OrderedDict(ids, queue.running.vals[ids[n] := task]);
      }
      assert ids[..|ids|] == ids;
      assert queue.State() == ReclaimAll(old(queue.State()), perGpu, now);
    }

    method LaunchDecision(d: Scheduling.Decision, pids: map<TaskId, int>, clock: real) returns (goOn: bool)
      requires Valid()
      modifies queue
      ensures Valid() && (queue.State(), goOn) == LaunchOne(old(queue.State()), d, pids, clock, cfg)
    {
      var task := queue.Get(d.taskId);
      if task.None? { return true; }
      // The queue raises for a task that is no longer queued, which ends the cycle.
      if d.taskId !in queue.queued.vals { return false; }
      if task.value.launchMode.Foreground? {
        queue.Reserve(d.taskId, d.gpuIds, Some(clock + cfg.attachTimeout), clock);
        return true;
      }
      queue.Reserve(d.taskId, d.gpuIds, None, clock);
      if d.taskId !in pids { return false; }
      queue.Start(d.taskId, pids[d.taskId], clock);
      return true;
    }

    method LaunchAll(ds: seq<Scheduling.Decision>, pids: map<TaskId, int>, clock: real) returns (completed: bool)
      requires Valid()
      modifies queue
      ensures Valid() && queue.State() == Launch(old(queue.State()), ds, pids, clock, cfg).0
      ensures completed == Launch(old(queue.State()), ds, pids, clock, cfg).1
    {
      ghost var goal := Launch(queue.State(), ds, pids, clock, cfg);
      assert ds[0..] == ds;
      for n := 0 to |ds|
        invariant Valid()
        invariant Launch(queue.State(), ds[n..], pids, clock, cfg) == goal
      {
        LaunchFrom(queue.State(), ds, n, pids, clock, cfg);
        completed := LaunchDecision(ds[n], pids, clock);
        if !completed { return; }
      }
      completed := true;
    }

    method PushExits(exits: seq<Completion>)
      requires Valid()
      modifies queue`completions
      ensures Valid() && queue.State() == old(queue.State()).(completions := old(queue.completions) + exits)
    {
      for n := 0 to |exits|
        invariant Valid()
        invariant queue.completions == old(queue.completions) + exits[..n]
      {
        queue.PushCompletion(exits[n]);
        assert exits[..n + 1] == exits[..n] + [exits[n]];
      }
      assert exits[..|exits|] == exits;
    }

    /** Consumes the exits, ends tasks, and shrinks exclusive holds. */
    method Settle(exits: seq<Completion>, perGpu: Sample, now: real)
      requires Valid()
      modifies queue
      ensures Valid()
      ensures queue.State() == Settled(old(queue.State()), exits, perGpu, now)
    {
      PushExits(exits);
      var _ := queue.Tick();
      UpdateAutoVramReclaim(perGpu, now);
    }

    /** Schedules the queued tasks, if there are any. */
    method Decide(perGpu: Sample, clock: real) returns (decisions: seq<Scheduling.Decision>)
      requires Valid()
      ensures decisions == DecisionsOn(queue.State(), ViewOn(perGpu, history.samples, clock, cfg))
    {
      var queued := queue.queued.Values();
      if queued == [] {
        NothingQueued(queue.State(), ViewOn(perGpu, history.samples, clock, cfg));
        return [];
      }
      var evaluations;
      evaluations, decisions := scheduler.TrySchedule(queued, perGpu, clock);
    }

    /** Settles the queue, then schedules and launches. */
    method ScheduleAndLaunch(perGpu: Sample, input: CycleInput) returns (completed: bool)
      requires Valid()
      modifies queue
      ensures Valid()
      ensures var before := Settled(old(queue.State()), input.exits, perGpu, input.now);
        var ds := DecisionsOn(before, ViewOn(perGpu, history.samples, input.clock, cfg));
        && queue.State() == Launch(before, ds, input.pids, input.clock, cfg).0
        && completed == Launch(before, ds, input.pids, input.clock, cfg).1
    {
      Settle(input.exits, perGpu, input.now);
      var decisions := Decide(perGpu, input.clock);
      completed := LaunchAll(decisions, input.pids, input.clock);
    }

    /** The locked half of a cycle. */
    method RunCycle(input: CycleInput)
      requires Valid() && inFlight.Some?
      modifies this, queue, history
      ensures Valid() && State() == Cycle(old(State()), input, cfg)
    {
      ghost var s := State();
      var snap := inFlight.value;
      lastPerGpu := Some(snap.sample);
      history.Record(snap.timestamp, snap.sample);
      assert TimedSample(snap.timestamp, snap.sample) == snap && history.samples == StoredHistory(s, cfg);
      var completed := ScheduleAndLaunch(snap.sample, input);
      ghost var launched := queue.State();
      CycleEnds(s, input, cfg, launched, completed);
      if completed {
        var _ := queue.ToSnapshot();
      }
      inFlight := None;
      assert queue.State() == if completed then MarkReported(launched) else launched;
      assert State() == Concluded(s, launched, completed, cfg);
    }
  }
}
