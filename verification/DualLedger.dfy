/** Both halves of the dual ledger at the moment of admission: a batch raises the declared memory of a GPU only as far as
    it fits the capacity together with the weighted peak of the unmanaged memory. */
module DualLedger {
  import opened Basics
  import opened Models
  import opened OrderedDicts
  import opened QueueSpec
  import opened Attribution
  import opened Scheduling
  import opened BatchRefinement
  import opened Node
  import opened Runs
  import opened Loads
  import opened Safety
  import opened Admitting
  import opened NodeSafety
  import opened RunSafety
  import opened Launches
  import ExclusiveRuns

  /** Declared memory and the weighted peak of the unmanaged memory are within the capacity of the GPU. */
  ghost predicate FitsBoth(view: View, live: map<TaskId, Task>, totals: Totals, g: int) {
    Load(live, g) as real + Peak(Flat(view.history) + view.current, g) * UNMANAGED_MULTIPLIER <= Capacity(totals, g)
  }

  /** A task that brings declared memory to the GPU fits it together with the unmanaged memory. */
  lemma {:induction false} AdmittedFits(view: View, live: map<TaskId, Task>, t: Task, u: Task, gpus: seq<int>, p: Pending,
        totals: Totals, admitted: map<TaskId, Admission>, batch: nat, pos: nat, g: int)
    requires SampleOk(view.current, totals) && AllBooked(view.current, p, live, admitted, batch, pos)
    requires t.id !in live && QueuedOk(t) && Holder(u, t, gpus) && view.PickFor(t, p) == Some(gpus)
    requires Contribution(u, g) > 0
    ensures FitsBoth(view, live[t.id := u], totals, g)
  {
    LoadAdd(live, t.id, u, g);
    var i := PickedFits(view, p, t, gpus, g);
    assert Booked(view.current[i], p, live, admitted, batch, pos);
    assert SummaryOk(view.current[i], totals);
    SharedHasRoom(view.current[i], Flat(view.history) + view.current, p, Declared(u, g), totals);
  }

  /** Either the declared memory did not grow from `live` to `next`, or it fits with the unmanaged memory. */
  ghost predicate RaisedWithRoom(view: View, live: map<TaskId, Task>, next: map<TaskId, Task>, totals: Totals, g: int) {
    Load(next, g) <= Load(live, g) || FitsBoth(view, next, totals, g)
  }

  lemma {:induction false} RaisedTwice(view: View, a: map<TaskId, Task>, b: map<TaskId, Task>, c: map<TaskId, Task>,
        totals: Totals, g: int)
    requires RaisedWithRoom(view, a, b, totals, g) && RaisedWithRoom(view, b, c, totals, g)
    ensures RaisedWithRoom(view, a, c, totals, g)
  {
  }

  lemma {:induction false} AdmittedRaises(view: View, live: map<TaskId, Task>, t: Task, u: Task,
        gpus: seq<int>, p: Pending, totals: Totals, admitted: map<TaskId, Admission>, batch: nat, pos: nat, g: int)
    requires SampleOk(view.current, totals) && AllBooked(view.current, p, live, admitted, batch, pos)
    requires t.id !in live && QueuedOk(t) && view.PickFor(t, p) == Some(gpus)
    requires Holder(u, t, gpus)
    ensures RaisedWithRoom(view, live, live[t.id := u], totals, g)
  {
    LoadAdd(live, t.id, u, g);
    if Contribution(u, g) > 0 {
      AdmittedFits(view, live, t, u, gpus, p, totals, admitted, batch, pos, g);
    }
  }

  /** One launch. */
  lemma {:induction false} LaunchedOneFits(q: QueueState, tasks: seq<Task>, view: View, b: Batch, totals: Totals,
        admitted: map<TaskId, Admission>, batch: nat, pos: nat, gpus: seq<int>, pids: map<TaskId, int>, clock: real,
        cfg: Config, g: int)
    requires tasks != [] && LaunchPre(q, tasks, view, b, totals, admitted, batch, pos)
    requires view.PickFor(tasks[0], b.pending) == Some(gpus)
    ensures RaisedWithRoom(view, q.Live(), LaunchedOne(q, tasks[0], gpus, pids, clock, cfg).Live(), totals, g)
  {
    var u := LaunchedOneLive(q, tasks[0], gpus, pids, clock, cfg);
    AdmittedRaises(view, q.Live(), tasks[0], u, gpus, b.pending, totals, admitted, batch, pos, g);
  }

  /** What launching the rest starts from. */
  lemma {:induction false} LaunchedOnePre(q: QueueState, tasks: seq<Task>, view: View, b: Batch, totals: Totals,
        admitted: map<TaskId, Admission>, batch: nat, pos: nat, gpus: seq<int>, pids: map<TaskId, int>, clock: real,
        cfg: Config)
    requires tasks != [] && LaunchPre(q, tasks, view, b, totals, admitted, batch, pos)
    requires view.PickFor(tasks[0], b.pending) == Some(gpus)
    ensures var t := tasks[0];
      LaunchPre(LaunchedOne(q, t, gpus, pids, clock, cfg), tasks[1..], view, After(t, Evaluate(t, view, b), b), totals,
                admitted[t.id := Admission(batch, pos)], batch, pos + 1)
  {
    var t := tasks[0];
    var deadline, next := DeadlineFor(t, clock, cfg), After(t, Evaluate(t, view, b), b);
    ReserveStep(q, tasks, view, b, totals, admitted, batch, pos, gpus, deadline, clock);
    if !t.launchMode.Foreground? && t.id in pids {
      StartStep(Reserve(q, t.id, gpus, deadline, clock), tasks[1..], view, next, totals,
                admitted[t.id := Admission(batch, pos)], batch, pos + 1, t.id, pids[t.id], clock);
    }
  }

  /** A whole batch, however far its launches get. */
  lemma {:induction false} LaunchFits(q: QueueState, tasks: seq<Task>, view: View, b: Batch, totals: Totals,
        admitted: map<TaskId, Admission>, batch: nat, pos: nat, pids: map<TaskId, int>, clock: real, cfg: Config, g: int)
    requires LaunchPre(q, tasks, view, b, totals, admitted, batch, pos)
    ensures var r := Launch(q, Decisions(Schedule(tasks, view, b)), pids, clock, cfg).0;
      RaisedWithRoom(view, q.Live(), r.Live(), totals, g)
    decreases |tasks|
  {
    if tasks != [] {
      var t, e := tasks[0], Evaluate(tasks[0], view, b);
      var after, ds := After(t, e, b), Decisions(Schedule(tasks, view, b));
      DecisionsStep(tasks, view, b);
      if !e.canRun {
        StillQueuedTailSame(q, tasks);
        LaunchFits(q, tasks[1..], view, after, totals, admitted, batch, pos, pids, clock, cfg, g);
      } else {
        var r := LaunchedOne(q, t, e.gpuIds, pids, clock, cfg);
        LaunchedOneFits(q, tasks, view, b, totals, admitted, batch, pos, e.gpuIds, pids, clock, cfg, g);
        LaunchedOnePre(q, tasks, view, b, totals, admitted, batch, pos, e.gpuIds, pids, clock, cfg);
        LaunchHead(q, ds, pids, clock, cfg);
        LaunchFits(r, tasks[1..], view, after, totals, admitted[t.id := Admission(batch, pos)], batch, pos + 1, pids,
                   clock, cfg, g);
        RaisedTwice(view, q.Live(), r.Live(), Launch(r, ds[1..], pids, clock, cfg).0.Live(), totals, g);
      }
    }
  }

  /** DUAL LEDGER. In every reachable state with a snapshot in flight, a cycle raises the declared memory of a GPU only if
      it fits, with 1.05 of the unmanaged peak in the window, 0.98 of the card. */
  lemma {:induction false} DualLedgerOverRuns(steps: seq<Step>, w: World, input: CycleInput, totals: Totals, cfg: Config,
        g: int)
    requires Reached(steps, w, totals, cfg) && QueueInv(w.node.q) && w.node.inFlight.Some?
    ensures var live, next := BeforeScheduling(w.node, input).Live(), Next(w, CycleStep(input), cfg).node.q.Live();
      Load(next, g) > Load(live, g) ==>
        Load(next, g) as real + 1.05 * Peak(Flat(ViewOf(w.node, input, cfg).history) + w.node.inFlight.value.sample, g)
          <= 0.98 * MapGet(totals, g)
  {
    ReachedInv(steps, w, totals, cfg);
    var q, view := BeforeScheduling(w.node, input), ViewOf(w.node, input, cfg);
    BeforeSchedulingOk(w, input, totals);
    CoveredIsBooked(view.current, q.Live(), totals, w.admitted, w.batch);
    QueuedAreStill(q);
    LaunchFits(q, q.queued.Values(), view, EMPTY_BATCH, totals, w.admitted, w.batch, 0, input.pids, input.clock, cfg, g);
    ExclusiveRuns.AfterCycle(w, input, cfg);
  }
}
