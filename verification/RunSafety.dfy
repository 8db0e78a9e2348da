/** Capacity and exclusivity over whole runs of the agent. */
module RunSafety {
  import opened Basics
  import opened Models
  import opened OrderedDicts
  import opened QueueSpec
  import opened Attribution
  import opened Node
  import opened Runs
  import opened Loads
  import opened Safety
  import opened Admitting
  import opened NodeSafety
  import Scheduling
  import TickMeaning
  import Reclaim

  // ---------------------------------------------------------------------------
  // One step
  // ---------------------------------------------------------------------------

  /** The queue changed, live tasks only left or kept their claims, and no queued task is new. */
  ghost predicate Quiet(q: QueueState, r: QueueState) {
    && Weaker(r.Live(), q.Live())
    && r.Ids() <= q.Ids()
    && r.queued.vals.Keys <= q.queued.vals.Keys
    && forall k :: k in r.queued.vals ==> SameClaim(r.queued.vals[k], q.queued.vals[k])
  }

  lemma {:induction false} QuietKeepsInv(w: World, q: QueueState, w': World, totals: Totals)
    requires Inv(w, totals) && QueueInv(q) && Quiet(w.node.q, q)
    requires w'.node == w.node.(q := q) && w'.issued == w.issued && w'.admitted == w.admitted
    ensures Inv(w', totals)
  {
    WeakerIsSafe(w.node.q.Live(), q.Live(), totals, w.admitted);
    if w.node.inFlight.Some? {
      WeakerIsCovered(w.node.inFlight.value.sample, w.node.q.Live(), q.Live());
    }
  }

  lemma {:induction false} TickQuiet(q: QueueState)
    requires QueueInv(q)
    ensures Quiet(q, Tick(q).0)
  {
    TickLive(q);
    TickIds(q);
    MinusIsWeaker(q.Live(), TickMeaning.Elems(Tick(q).1));
  }

  lemma {:induction false} CancelQuiet(q: QueueState, id: TaskId, now: real)
    requires QueueInv(q)
    ensures Quiet(q, Cancel(q, id, now))
  {
    if q.Get(id).Some? {
      CancelLive(q, id, now);
      MinusIsWeaker(q.Live(), {id});
    }
  }

  lemma {:induction false} StartQuiet(q: QueueState, id: TaskId, pid: int, now: real)
    requires QueueInv(q) && id in q.reserved.vals
    ensures Quiet(q, Start(q, id, pid, now))
  {
    StartWeaker(q, id, pid, now);
  }

  lemma {:induction false} PriorityQuiet(q: QueueState, id: TaskId, priority: int)
    requires QueueInv(q)
    ensures Quiet(q, SetPriority(q, id, priority))
  {
    assert SetPriority(q, id, priority).Live() == q.Live();
  }

  lemma {:induction false} SubmitKeepsInv(w: World, spec: TaskSpec, id: TaskId, now: real, totals: Totals, cfg: Config)
    requires Inv(w, totals) && id !in w.issued
    ensures id !in w.node.q.Ids() && Inv(Next(w, SubmitStep(spec, id, now), cfg), totals)
  {
    var q := w.node.q;
    if SubmitErrorOf(w.node, spec).None? {
      var n := Normalized(spec);
      var t := NewTask(n, id, now);
      assert QueuedOk(t);
      var r := Submit(q, n, id, now);
      assert r.queued.vals == q.queued.vals[id := t];
      assert r.Live() == q.Live();
    }
  }

  lemma {:induction false} SnapshotKeepsInv(w: World, cards: seq<GpuCard>, procs: seq<GpuProcess>, timestamp: real,
        totals: Totals, cfg: Config)
    requires Inv(w, totals) && Enabled(w, SnapshotStep(cards, procs, timestamp), totals)
    ensures Inv(Next(w, SnapshotStep(cards, procs, timestamp), cfg), totals)
  {
    SampleOfOk(w.node.q, cards, procs, totals);
  }

  lemma {:induction false} LaunchIds(q: QueueState, ds: seq<Scheduling.Decision>, pids: map<TaskId, int>, clock: real,
        cfg: Config)
    requires QueueInv(q)
    ensures var r := Launch(q, ds, pids, clock, cfg).0;
      && r.Ids() == q.Ids()
      && r.queued.vals.Keys <= q.queued.vals.Keys
      && (forall k :: k in r.queued.vals ==> r.queued.vals[k] == q.queued.vals[k])
      && r.terminal == q.terminal
    decreases |ds|
  {
    if ds != [] {
      var id, gpus := ds[0].taskId, ds[0].gpuIds;
      if id !in q.queued.vals {
        LaunchIds(q, ds[1..], pids, clock, cfg);
      } else {
        var t := q.queued.vals[id];
        LaunchUnfolded(q, t, gpus, ds, pids, clock, cfg);
        var q1 := Reserve(q, id, gpus, DeadlineFor(t, clock, cfg), clock);
        ReserveIds(q, id, gpus, DeadlineFor(t, clock, cfg), clock);
        if t.launchMode.Foreground? {
          LaunchIds(q1, ds[1..], pids, clock, cfg);
        } else if id in pids {
          StartIds(q1, id, pids[id], clock);
          LaunchIds(Start(q1, id, pids[id], clock), ds[1..], pids, clock, cfg);
        }
      }
    }
  }

  lemma {:induction false} ReserveIds(q: QueueState, id: TaskId, gpus: seq<int>, deadline: Option<real>, now: real)
    requires QueueInv(q) && id in q.queued.vals
    ensures var r := Reserve(q, id, gpus, deadline, now);
      r.Ids() == q.Ids() && r.queued.vals == q.queued.vals - {id} && r.terminal == q.terminal
  {
  }

  lemma {:induction false} StartIds(q: QueueState, id: TaskId, pid: int, now: real)
    requires QueueInv(q) && id in q.reserved.vals
    ensures var r := Start(q, id, pid, now);
      r.Ids() == q.Ids() && r.queued == q.queued && r.terminal == q.terminal
  {
  }

  /** The queue as it is when the batch is scheduled: safe, covered by the sample, and with the old queued tasks. */
  lemma {:induction false} BeforeSchedulingOk(w: World, input: CycleInput, totals: Totals)
    requires Inv(w, totals) && w.node.inFlight.Some?
    ensures var q := BeforeScheduling(w.node, input);
      && Safe(q.Live(), totals, w.admitted) && SampleCovers(w.node.inFlight.value.sample, q.Live())
      && q.queued == w.node.q.queued && q.Ids() <= w.issued
  {
    var q0 := w.node.q.(completions := w.node.q.completions + input.exits);
    assert q0.Live() == w.node.q.Live();
    var q1 := Tick(q0).0;
    TickQuiet(q0);
    TickLive(q0);
    var sample := w.node.inFlight.value.sample;
    WeakerIsSafe(q0.Live(), q1.Live(), totals, w.admitted);
    WeakerIsCovered(sample, q0.Live(), q1.Live());
    var q2 := ReclaimAll(q1, sample, input.now);
    ReclaimAllLive(q1, sample, input.now);
    ReclaimIsSafe(q1.Live(), q2.Live(), sample, input.now, totals, w.admitted);
    ReclaimIsCovered(q1.Live(), q2.Live(), sample, input.now, totals, w.admitted);
  }

  lemma {:induction false} QueuedAreStill(q: QueueState)
    requires QueueInv(q) && AllQueuedOk(q)
    ensures StillQueued(q, q.queued.Values())
  {
    var ts := q.queued.Values();
    forall i, j | 0 <= i < j < |ts|
      ensures ts[i].id != ts[j].id
    {
      assert Apart(q.queued.order, i, j);
    }
  }

  lemma {:induction false} LaunchedOk(w: World, input: CycleInput, totals: Totals, cfg: Config)
    requires Inv(w, totals) && w.node.inFlight.Some?
    ensures var r := Launched(w.node, input, cfg).0;
      && Safe(r.Live(), totals, Admit(w.admitted, DecisionsOf(w.node, input, cfg), w.batch, 0))
      && AllQueuedOk(r) && r.Ids() <= w.issued
  {
    var q := BeforeScheduling(w.node, input);
    BeforeSchedulingOk(w, input, totals);
    var view := ViewOf(w.node, input, cfg);
    CoveredIsBooked(view.current, q.Live(), totals, w.admitted, w.batch);
    QueuedAreStill(q);
    LaunchIsSafe(q, q.queued.Values(), view, Scheduling.EMPTY_BATCH, totals, w.admitted, w.batch, 0, input.pids, input.clock, cfg);
    LaunchIds(q, DecisionsOf(w.node, input, cfg), input.pids, input.clock, cfg);
  }

  lemma {:induction false} MarkingKeepsPlaces(q: QueueState)
    requires QueueInv(q)
    ensures MarkReported(q).Live() == q.Live() && MarkReported(q).Ids() == q.Ids() && MarkReported(q).queued == q.queued
  {
  }

  /** The invariant speaks of a queue's places only. */
  lemma {:induction false} SamePlacesInv(w: World, q: QueueState, totals: Totals)
    requires QueueInv(q) && QueueInv(w.node.q) && w.node.inFlight.None?
    requires w.node.q.Live() == q.Live() && w.node.q.Ids() == q.Ids() && w.node.q.queued == q.queued
    requires Safe(q.Live(), totals, w.admitted) && AllQueuedOk(q) && q.Ids() <= w.issued
    ensures Inv(w, totals)
  {
  }

  lemma {:induction false} CycleKeepsInv(w: World, input: CycleInput, totals: Totals, cfg: Config)
    requires Inv(w, totals) && w.node.inFlight.Some?
    ensures Inv(Next(w, CycleStep(input), cfg), totals)
  {
    var q := Launched(w.node, input, cfg).0;
    LaunchedOk(w, input, totals, cfg);
    MarkingKeepsPlaces(q);
    SamePlacesInv(Next(w, CycleStep(input), cfg), q, totals);
  }

  /** Apart from submissions and cycles, no step adds a claim or a queued task. */
  lemma {:induction false} StepQuiet(s: NodeState, step: Step, cfg: Config)
    requires QueueInv(s.q) && !step.SubmitStep? && !step.CycleStep?
    ensures Quiet(s.q, Do(s, step, cfg).q)
  {
    match step {
      case PriorityStep(id, priority) => PriorityQuiet(s.q, id, priority);
      case CancelStep(id, now) => CancelQuiet(s.q, id, now);
      case ConfirmStep(id, pid, now) => if id in s.q.reserved.vals { StartQuiet(s.q, id, pid, now); }
      case FinishStep(id, exitCode, now) => TickStepQuiet(s, step, cfg);
      case FailStep(id, now) => TickStepQuiet(s, step, cfg);
      case MonitorStep(o) => assert Do(s, step, cfg).q.Live() == s.q.Live();
      case SnapshotStep(cards, procs, timestamp) => assert Do(s, step, cfg).q == s.q;
    }
  }

  lemma {:induction false} TickStepQuiet(s: NodeState, step: Step, cfg: Config)
    requires QueueInv(s.q) && (step.FinishStep? || step.FailStep?)
    ensures Quiet(s.q, Do(s, step, cfg).q)
  {
    var at := AtTick(s, step);
    if at.Some? {
      assert at.value.Live() == s.q.Live() && at.value.Ids() == s.q.Ids() && at.value.queued == s.q.queued;
      TickQuiet(at.value);
    }
  }

  /** Every enabled step keeps the invariant. */
  lemma {:induction false} NextKeepsInv(w: World, step: Step, totals: Totals, cfg: Config)
    requires Inv(w, totals) && Enabled(w, step, totals)
    ensures step.SubmitStep? ==> step.id !in w.node.q.Ids()
    ensures Inv(Next(w, step, cfg), totals)
  {
    match step {
      case SubmitStep(spec, id, now) => SubmitKeepsInv(w, spec, id, now, totals, cfg);
      case SnapshotStep(cards, procs, timestamp) => SnapshotKeepsInv(w, cards, procs, timestamp, totals, cfg);
      case CycleStep(input) => CycleKeepsInv(w, input, totals, cfg);
      case _ =>
        StepQuiet(w.node, step, cfg);
        QuietKeepsInv(w, Do(w.node, step, cfg).q, Next(w, step, cfg), totals);
    }
  }

  // ---------------------------------------------------------------------------
  // Whole runs
  // ---------------------------------------------------------------------------

  /** `w` is reached from the start by the steps of `steps`, each enabled where it is taken. */
  ghost predicate Reached(steps: seq<Step>, w: World, totals: Totals, cfg: Config)
    decreases |steps|
  {
    if steps == [] then w == START
    else exists before: World ::
      Reached(Init(steps), before, totals, cfg) && Leads(before, Last(steps), w, totals, cfg)
  }

  /** LIFECYCLE. In every reachable state the four collections are disjoint, hold only their own status under the task's
      own id, and the queued tasks stand in (priority, created_at) order. */
  lemma {:induction false} LifecycleOverRuns(steps: seq<Step>, w: World, totals: Totals, cfg: Config)
    requires Reached(steps, w, totals, cfg)
    ensures QueueInv(w.node.q)
  {
    if steps == [] {
      EmptyQueueInv();
    } else {
      var before: World :| Reached(Init(steps), before, totals, cfg) && Leads(before, Last(steps), w, totals, cfg);
      assert w.node == Do(before.node, Last(steps), cfg);
    }
  }

  lemma {:induction false} StartInv(totals: Totals)
    ensures Inv(START, totals)
  {
  }

  lemma {:induction false} ReachedInv(steps: seq<Step>, w: World, totals: Totals, cfg: Config)
    requires Reached(steps, w, totals, cfg)
    ensures Inv(w, totals)
    decreases |steps|
  {
    if steps == [] {
      StartInv(totals);
    } else {
      var before: World :| Reached(Init(steps), before, totals, cfg) && Leads(before, Last(steps), w, totals, cfg);
      ReachedInv(Init(steps), before, totals, cfg);
      NextKeepsInv(before, Last(steps), totals, cfg);
    }
  }

  /** LOAD. In every reachable state, the declared memory of all reserved and running tasks assigned to a GPU is within
      the card's limit. */
  lemma {:induction false} LoadOverRuns(steps: seq<Step>, w: World, totals: Totals, cfg: Config, g: int)
    requires Reached(steps, w, totals, cfg)
    ensures Load(w.node.q.Live(), g) as real <= Limit(totals, g)
  {
    ReachedInv(steps, w, totals, cfg);
    assert LoadFits(w.node.q.Live(), totals, g);
  }

  /** CAPACITY. On a card that is safe to reclaim on, whatever the others are, the declared memory is at most 0.98 of
      the card. */
  lemma {:induction false} CapacityOverRuns(steps: seq<Step>, w: World, totals: Totals, cfg: Config, g: int)
    requires Reached(steps, w, totals, cfg)
    requires MapGet(totals, g) >= 0.0 && Reclaim.ReclaimSafe(MapGet(totals, g))
    ensures Load(w.node.q.Live(), g) as real <= 0.98 * MapGet(totals, g)
  {
    LoadOverRuns(steps, w, totals, cfg, g);
    Reclaim.LargestReclaimDecides(MapGet(totals, g));
  }

  /** EXCLUSIVITY. While task `a` holds GPU `g` exclusively, any other live task on `g` is a shared task with
      reservation 0, decided earlier in the very batch that decided `a`; so it does not hold `g` exclusively. */
  lemma {:induction false} ExclusivityOverRuns(steps: seq<Step>, w: World, totals: Totals, cfg: Config, a: TaskId,
        b: TaskId, g: int)
    requires Reached(steps, w, totals, cfg)
    requires var live := w.node.q.Live();
      a in live && b in live && a != b && AssignedTo(live[a], g) && AssignedTo(live[b], g) && ExclusiveActive(live[a], g)
    ensures var live := w.node.q.Live();
      && !ExclusiveActive(live[b], g) && live[b].vramMode.Shared? && Declared(live[b], g) == 0
      && a in w.admitted && b in w.admitted
      && w.admitted[b].batch == w.admitted[a].batch && w.admitted[b].pos < w.admitted[a].pos
  {
    ReachedInv(steps, w, totals, cfg);
    assert TaskOk(w.node.q.Live(), totals, w.admitted, a) && TaskOk(w.node.q.Live(), totals, w.admitted, b);
    assert Compatible(w.node.q.Live(), w.admitted, a, b, g);
  }
}
