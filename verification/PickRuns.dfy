/** What the GPUs of a newly admitted task showed when it was admitted, over whole runs. */
module PickRuns {
  import opened Basics
  import opened Models
  import opened OrderedDicts
  import opened QueueSpec
  import opened Attribution
  import opened Scheduling
  import opened SchedulingFacts
  import opened BatchRefinement
  import opened Node
  import opened Runs
  import opened Safety
  import opened NodeSafety
  import opened RunSafety
  import opened Launches
  import opened Offers
  import History
  import HistoryRuns
  import HolderRuns

  lemma {:induction false} ViewDistinct(steps: seq<Step>, w: World, input: CycleInput, totals: Totals, cfg: Config)
    requires Reached(steps, w, totals, cfg) && w.node.inFlight.Some?
    ensures Distinct(ViewOf(w.node, input, cfg))
  {
    ReachedInv(steps, w, totals, cfg);
    HistoryRuns.SamplesDistinct(steps, w, totals, cfg);
    var h := ViewOf(w.node, input, cfg).history;
    HistoryRuns.ViewHistory(w.node, input, cfg);
    forall k | 0 <= k < |h|
      ensures DistinctGpus(h[k].sample)
    {
      assert h[k] in w.node.samples + [w.node.inFlight.value];
    }
  }

  // ---------------------------------------------------------------------------
  // The batch state in which a task was decided
  // ---------------------------------------------------------------------------

  ghost predicate NoneNegative(p: Pending) {
    forall g :: PendingMb(p, g) >= 0.0
  }

  ghost predicate AllNonNegative(tasks: seq<Task>) {
    forall t :: t in tasks ==> NonNegative(t)
  }

  lemma {:induction false} StillNoneNegative(t: Task, e: Evaluation, b: Batch)
    requires NonNegative(t) && NoneNegative(b.pending)
    ensures NoneNegative(After(t, e, b).pending)
  {
    if e.canRun {
      ReservingGrows(t, b.pending, e.gpuIds);
      var next := Reserving(b.pending, t, e.gpuIds);
      forall g
        ensures PendingMb(next, g) >= 0.0
      {
        assert PendingMb(b.pending, g) >= 0.0;
        assert MapGet(b.pending.shared, g) <= MapGet(next.shared, g);
      }
    }
  }

  ghost predicate PickedIn(view: View, tasks: seq<Task>, d: Decision, t: Task, p: Pending) {
    t in tasks && t.id == d.taskId && view.PickFor(t, p) == Some(d.gpuIds) && NoneNegative(p)
  }

  lemma {:induction false} TailNonNegative(tasks: seq<Task>)
    requires tasks != [] && AllNonNegative(tasks)
    ensures NonNegative(tasks[0]) && AllNonNegative(tasks[1..])
  {
    assert tasks[0] in tasks;
    forall u | u in tasks[1..] ensures NonNegative(u) { assert u in tasks; }
  }

  /** Every decision is the pick for its task in some state of the batch. */
  lemma {:induction false} DecisionPicked(tasks: seq<Task>, view: View, b: Batch, y: nat, d: Decision)
    returns (t: Task, p: Pending)
    requires AllNonNegative(tasks) && NoneNegative(b.pending)
    requires y < |Decisions(Schedule(tasks, view, b))| && Decisions(Schedule(tasks, view, b))[y] == d
    ensures PickedIn(view, tasks, d, t, p)
    decreases |tasks|
  {
    var e := Evaluate(tasks[0], view, b);
    var after := After(tasks[0], e, b);
    var rest := Decisions(Schedule(tasks[1..], view, after));
    DecisionsStep(tasks, view, b);
    if e.canRun && y == 0 {
      t, p := tasks[0], b.pending;
    } else {
      TailNonNegative(tasks);
      StillNoneNegative(tasks[0], e, b);
      var z := if e.canRun then y - 1 else y;
      assert rest[z] == d;
      t, p := DecisionPicked(tasks[1..], view, after, z, d);
    }
  }

  // ---------------------------------------------------------------------------
  // Over runs
  // ---------------------------------------------------------------------------

  /** The GPU is in the snapshot and shows what `t` needs. */
  ghost predicate ShownFor(view: View, t: Task, g: int) {
    exists i :: 0 <= i < |view.current| && view.current[i].gpuIndex == g && OfferedAt(view, NO_PENDING, t, i)
  }

  lemma {:induction false} OfferedAlone(view: View, p: Pending, t: Task, i: nat)
    requires i < |view.current| && NoneNegative(p) && OfferedAt(view, p, t, i)
    ensures OfferedAt(view, NO_PENDING, t, i)
  {
    assert PendingMb(p, view.current[i].gpuIndex) >= 0.0;
  }

  lemma {:induction false} PickedIsShown(view: View, t: Task, p: Pending, gpus: seq<int>, g: int)
    requires Distinct(view) && NoneNegative(p) && view.PickFor(t, p) == Some(gpus) && g in gpus
    ensures ShownFor(view, t, g)
  {
    GivenIsOffered(view, p, t, gpus, g);
    var i :| 0 <= i < |view.current| && OfferedAt(view, p, t, i) && view.current[i].gpuIndex == g;
    OfferedAlone(view, p, t, i);
  }

  lemma {:induction false} DecidedIsShown(q: QueueState, view: View, y: nat, g: int)
    requires QueueInv(q) && AllQueuedOk(q) && Distinct(view) && y < |DecisionsOn(q, view)|
    requires g in DecisionsOn(q, view)[y].gpuIds
    ensures var k := DecisionsOn(q, view)[y].taskId; k in q.queued.vals && ShownFor(view, q.queued.vals[k], g)
  {
    var tasks := q.queued.Values();
    forall t | t in tasks
      ensures NonNegative(t) && t.id in q.queued.vals && q.queued.vals[t.id] == t
    {
      var i :| 0 <= i < |tasks| && tasks[i] == t;
      assert q.queued.order[i] in q.queued.vals;
    }
    var t, p := DecisionPicked(tasks, view, EMPTY_BATCH, y, DecisionsOn(q, view)[y]);
    PickedIsShown(view, t, p, DecisionsOn(q, view)[y].gpuIds, g);
  }

  /** Every GPU of every task that a cycle admits shows in the snapshot in flight, and in the window, what the task needs,
      even without the other decisions of the batch. */
  lemma {:induction false} AdmittedIsShown(steps: seq<Step>, w: World, input: CycleInput, totals: Totals, cfg: Config,
        k: TaskId, g: int)
    requires Reached(steps, w, totals, cfg) && QueueInv(w.node.q) && w.node.inFlight.Some?
    requires k in w.node.q.queued.vals
    requires var live := Next(w, CycleStep(input), cfg).node.q.Live(); k in live && AssignedTo(live[k], g)
    ensures ShownFor(ViewOf(w.node, input, cfg), w.node.q.queued.vals[k], g)
  {
    ReachedInv(steps, w, totals, cfg);
    ViewDistinct(steps, w, input, totals, cfg);
    var q, view := HolderRuns.CycleIsBatch(w, input, Next(w, CycleStep(input), cfg), cfg);
    var y := LaunchedWasDecided(
      q, DecisionsOn(q, view), input.pids, input.clock, cfg, k, Next(w, CycleStep(input), cfg).node.q.Live());
    DecidedIsShown(q, view, y, g);
  }

  /** The sample belongs to the window of a cycle at `clock`, both when `snap` was recorded and when the cycle reads it. */
  predicate InWindow(x: TimedSample, snap: TimedSample, clock: real, window: real) {
    x.timestamp >= snap.timestamp - window && x.timestamp >= clock - window
  }

  lemma {:induction false} WindowIsSeen(s: NodeState, input: CycleInput, cfg: Config, x: TimedSample)
    requires s.inFlight.Some? && x in s.samples + [s.inFlight.value]
    requires InWindow(x, s.inFlight.value, input.clock, cfg.historyWindow)
    ensures x in ViewOf(s, input, cfg).history
  {
    History.SinceKeeps(s.samples + [s.inFlight.value], s.inFlight.value.timestamp - cfg.historyWindow, x);
    History.SinceKeeps(StoredHistory(s, cfg), input.clock - cfg.historyWindow, x);
  }

  lemma {:induction false} ShownWhole(view: View, t: Task, g: int)
    requires ShownFor(view, t, g) && t.vramMode.ExclusiveAuto?
    ensures exists i :: 0 <= i < |view.current| && view.current[i].gpuIndex == g && ShowsQuiet(view.current[i])
    ensures forall x :: x in view.history ==> IdleIn(x.sample, g)
  {
  }

  ghost predicate QuietNow(sample: Sample, g: int) {
    exists i :: 0 <= i < |sample| && sample[i].gpuIndex == g && ShowsQuiet(sample[i])
  }

  ghost predicate AllIdle(samples: seq<TimedSample>, snap: TimedSample, clock: real, window: real, g: int) {
    forall x :: x in samples && InWindow(x, snap, clock, window) ==> IdleIn(x.sample, g)
  }

  /** EXCLUSIVE ADMISSION. Each GPU that a cycle of any run gives an exclusive task shows, in the snapshot in flight, no task,
      a utilization below 3.0 and less than 3% of the card used; and in every sample of the window that lists the GPU, no task
      and less than 3% used by others. */
  lemma {:induction false} WholeGivenOverRuns(steps: seq<Step>, w: World, input: CycleInput, totals: Totals, cfg: Config,
        k: TaskId, g: int)
    requires Reached(steps, w, totals, cfg) && QueueInv(w.node.q) && w.node.inFlight.Some?
    requires k in w.node.q.queued.vals && w.node.q.queued.vals[k].vramMode.ExclusiveAuto?
    requires var live := Next(w, CycleStep(input), cfg).node.q.Live(); k in live && AssignedTo(live[k], g)
    ensures var snap := w.node.inFlight.value;
      QuietNow(snap.sample, g) && AllIdle(w.node.samples + [snap], snap, input.clock, cfg.historyWindow, g)
  {
    AdmittedIsShown(steps, w, input, totals, cfg, k, g);
    ShownIsQuiet(w.node, input, cfg, w.node.q.queued.vals[k], g);
  }

  lemma {:induction false} ShownIsQuiet(s: NodeState, input: CycleInput, cfg: Config, t: Task, g: int)
    requires s.inFlight.Some? && t.vramMode.ExclusiveAuto? && ShownFor(ViewOf(s, input, cfg), t, g)
    ensures var snap := s.inFlight.value;
      QuietNow(snap.sample, g) && AllIdle(s.samples + [snap], snap, input.clock, cfg.historyWindow, g)
  {
    var snap := s.inFlight.value;
    ShownWhole(ViewOf(s, input, cfg), t, g);
    forall x | x in s.samples + [snap] && InWindow(x, snap, input.clock, cfg.historyWindow)
      ensures IdleIn(x.sample, g)
    {
      WindowIsSeen(s, input, cfg, x);
    }
  }

  /** With a clock that never goes back the window is one of all snapshots of the run. */
  lemma {:induction false} WholeGivenInLog(steps: seq<Step>, w: World, input: CycleInput, totals: Totals, cfg: Config,
        log: seq<TimedSample>, k: TaskId, g: int, x: TimedSample)
    requires HistoryRuns.ReachedLogging(steps, w, totals, cfg, log) && QueueInv(w.node.q) && w.node.inFlight.Some?
    requires History.NonDecreasing(log + [w.node.inFlight.value]) && w.node.inFlight.value.timestamp <= input.clock
    requires k in w.node.q.queued.vals && w.node.q.queued.vals[k].vramMode.ExclusiveAuto?
    requires var live := Next(w, CycleStep(input), cfg).node.q.Live(); k in live && AssignedTo(live[k], g)
    requires x in log + [w.node.inFlight.value] && x.timestamp >= input.clock - cfg.historyWindow
    ensures IdleIn(x.sample, g)
  {
    HistoryRuns.LoggingIsReached(steps, w, totals, cfg, log);
    AdmittedIsShown(steps, w, input, totals, cfg, k, g);
    HistoryRuns.SamplesAreRecorded(steps, w, totals, cfg, log);
    LogIsSeen(w.node, input, cfg, log, x);
    ShownWhole(ViewOf(w.node, input, cfg), w.node.q.queued.vals[k], g);
  }

  lemma {:induction false} LogIsKept(all: seq<TimedSample>, stored: seq<TimedSample>, window: real, clock: real,
        x: TimedSample)
    requires History.NonDecreasing(all) && all != [] && Last(all).timestamp <= clock
    requires stored == History.Recorded(all, window) && x in all && x.timestamp >= clock - window
    ensures x in History.Since(stored, clock - window)
  {
    History.WindowEqualsFullLog(all, window, clock, window);
    History.SinceKeeps(all, clock - window, x);
  }

  lemma {:induction false} LogIsSeen(s: NodeState, input: CycleInput, cfg: Config, log: seq<TimedSample>, x: TimedSample)
    requires s.inFlight.Some? && s.samples == History.Recorded(log, cfg.historyWindow)
    requires History.NonDecreasing(log + [s.inFlight.value]) && s.inFlight.value.timestamp <= input.clock
    requires x in log + [s.inFlight.value] && x.timestamp >= input.clock - cfg.historyWindow
    ensures x in ViewOf(s, input, cfg).history
  {
    HistoryRuns.RecordedStored(log, [s.inFlight.value], cfg.historyWindow);
    LogIsKept(log + [s.inFlight.value], StoredHistory(s, cfg), cfg.historyWindow, input.clock, x);
  }

  /** SHARED ADMISSION. Each GPU that a cycle of any run gives a shared task shows no exclusive owner, and if the task
      reserves something it fits 0.98 of the card with all declarations shown and 1.05 of the unmanaged peak. */
  lemma {:induction false} SharedGivenOverRuns(steps: seq<Step>, w: World, input: CycleInput, totals: Totals, cfg: Config,
        k: TaskId, g: int)
    requires Reached(steps, w, totals, cfg) && QueueInv(w.node.q) && w.node.inFlight.Some?
    requires k in w.node.q.queued.vals && w.node.q.queued.vals[k].vramMode.Shared?
    requires var live := Next(w, CycleStep(input), cfg).node.q.Live(); k in live && AssignedTo(live[k], g)
    ensures var t, snap := w.node.q.queued.vals[k], w.node.inFlight.value;
      exists i :: 0 <= i < |snap.sample| && snap.sample[i].gpuIndex == g
        && RoomFor(ViewOf(w.node, input, cfg), snap.sample[i], t.requestedVramMb.GetOr(t.requireVramMb))
  {
    var view := ViewOf(w.node, input, cfg);
    AdmittedIsShown(steps, w, input, totals, cfg, k, g);
    var i :| 0 <= i < |view.current| && view.current[i].gpuIndex == g
      && OfferedAt(view, NO_PENDING, w.node.q.queued.vals[k], i);
  }

  predicate RoomFor(view: View, gpu: GpuSummary, mb: int) {
    !Owned(gpu) && (mb <= 0 || mb as real + ManagedMb(gpu.pmeowTasks) as real
      + 1.05 * Peak(Flat(view.history) + view.current, gpu.gpuIndex) <= 0.98 * gpu.totalMb)
  }

  // ---------------------------------------------------------------------------
  // The head of the queue
  // ---------------------------------------------------------------------------

  lemma {:induction false} HeadDecided(q: QueueState, view: View)
    requires QueueInv(q) && AllQueuedOk(q) && Distinct(view) && q.queued.order != []
    ensures var t, ds := q.queued.vals[q.queued.order[0]], DecisionsOn(q, view);
      if |Offered(view, NO_PENDING, t)| >= t.requireGpuCount then ds != [] && ds[0].taskId == t.id
      else forall y :: 0 <= y < |ds| ==> ds[y].taskId != t.id
  {
    var tasks := q.queued.Values();
    var t := tasks[0];
    GivenExactly(view, NO_PENDING, t);
    QueuedAreStill(q);
    var after := After(t, Evaluate(t, view, EMPTY_BATCH), EMPTY_BATCH);
    ScheduleStep(tasks, view, EMPTY_BATCH);
    DecisionsFromTasks(tasks[1..], view, after);
    HolderRuns.NotNamed(tasks, Decisions(Schedule(tasks[1..], view, after)));
  }

  /** NO IDLE WAITING. In any run the first task of the queue gets its GPUs in a cycle if and only if at least as many
      GPUs as it asks for show what it needs. */
  lemma {:induction false} HeadServedExactly(steps: seq<Step>, w: World, input: CycleInput, totals: Totals, cfg: Config)
    requires Reached(steps, w, totals, cfg) && QueueInv(w.node.q) && w.node.inFlight.Some? && w.node.q.queued.order != []
    ensures var t := w.node.q.queued.vals[w.node.q.queued.order[0]];
      t.id in Next(w, CycleStep(input), cfg).node.q.Live() <==>
        |Offered(ViewOf(w.node, input, cfg), NO_PENDING, t)| >= t.requireGpuCount
  {
    ReachedInv(steps, w, totals, cfg);
    ViewDistinct(steps, w, input, totals, cfg);
    var q, view := HolderRuns.CycleIsBatch(w, input, Next(w, CycleStep(input), cfg), cfg);
    HeadOfBatch(q, view, input, cfg);
  }

  lemma {:induction false} HeadOfBatch(q: QueueState, view: View, input: CycleInput, cfg: Config)
    requires QueueInv(q) && AllQueuedOk(q) && Distinct(view) && q.queued.order != []
    ensures var t := q.queued.vals[q.queued.order[0]];
      t.id in Launch(q, DecisionsOn(q, view), input.pids, input.clock, cfg).0.Live() <==>
        |Offered(view, NO_PENDING, t)| >= t.requireGpuCount
  {
    var t, ds := q.queued.vals[q.queued.order[0]], DecisionsOn(q, view);
    HeadDecided(q, view);
    if |Offered(view, NO_PENDING, t)| >= t.requireGpuCount {
      LaunchServesHead(q, ds, input.pids, input.clock, cfg);
    } else if t.id in Launch(q, ds, input.pids, input.clock, cfg).0.Live() {
      var live := Launch(q, ds, input.pids, input.clock, cfg).0.Live();
      var y := LaunchedWasDecided(q, ds, input.pids, input.clock, cfg, t.id, live);
    }
  }
}
