/** Capacity holds on a card over all runs exactly when that card is safe to reclaim on, whatever the other cards are. */
module CapacityLimit {
  import opened Basics
  import opened Models
  import opened OrderedDicts
  import opened QueueSpec
  import opened Attribution
  import opened Scheduling
  import opened Node
  import opened Runs
  import opened Loads
  import opened Safety
  import opened RunSafety
  import opened SchedulingFacts
  import BatchRefinement
  import NodeSafety
  import Reclaim
  import HistoryRuns

  // ---------------------------------------------------------------------------
  // Steps of a run
  // ---------------------------------------------------------------------------

  lemma {:induction false} ReachedNext(steps: seq<Step>, w: World, step: Step, totals: Totals, cfg: Config)
    requires Reached(steps, w, totals, cfg) && Enabled(w, step, totals) && QueueInv(w.node.q)
    requires step.SubmitStep? ==> step.id !in w.node.q.Ids()
    ensures Reached(steps + [step], Next(w, step, cfg), totals, cfg)
    ensures QueueInv(Next(w, step, cfg).node.q)
  {
    InitSnoc(steps, step);
  }

  // ---------------------------------------------------------------------------
  // A queue with one task
  // ---------------------------------------------------------------------------

  const ID: TaskId := "t"

  function Only(t: Task): OrderedDict<Task> {
    OrderedDict([ID], map[ID := t])
  }

  function ExclusiveSpec(): TaskSpec {
    TaskSpec(Background, 0, None, ExclusiveAuto, 1, None, 10)
  }

  function QueuedTask(): Task {
    NewTask(Normalized(ExclusiveSpec()), ID, 0.0)
  }

  function RunningTask(g: int): Task {
    AsStarted(AsReserved(QueuedTask(), [g], None, 0.0), 1, 0.0)
  }

  function WithQueued(): QueueState {
    EMPTY_QUEUE.(queued := Only(QueuedTask()))
  }

  function WithRunning(t: Task): QueueState {
    EMPTY_QUEUE.(running := Only(t))
  }

  lemma {:induction false} SubmitGives()
    ensures QueueInv(EMPTY_QUEUE) && EMPTY_QUEUE.Ids() == {}
    ensures Submit(EMPTY_QUEUE, Normalized(ExclusiveSpec()), ID, 0.0) == WithQueued()
  {
  }

  lemma {:induction false} QuietTick(q: QueueState)
    requires QueueInv(q) && q.completions == [] && q.runtimes == [] && q.terminal == Empty<Task>()
    ensures Tick(q).0 == q
  {
  }

  // ---------------------------------------------------------------------------
  // The idle card and the first batch
  // ---------------------------------------------------------------------------

  function Card(g: int, totalMb: real): GpuCard {
    GpuCard(g, totalMb, 0.0, 0.0)
  }

  lemma {:induction false} OneIndex(s: set<int>, g: int)
    requires s == {g}
    ensures SortedInts(s) == [g]
  {
  }

  lemma {:induction false} OneCardTable(card: GpuCard, value: GpuCard -> real)
    ensures CardTable([card], value) == map[card.index := value(card)]
  {
  }

  lemma {:induction false} OneCardReadings(g: int, totalMb: real)
    ensures var n := Readings([Card(g, totalMb)]);
      n.memory == map[g := totalMb] && n.used == Some(map[g := 0.0]) && n.utilization == Some(map[g := 0.0])
  {
    OneCardTable(Card(g, totalMb), (c: GpuCard) => c.totalMb);
    OneCardTable(Card(g, totalMb), (c: GpuCard) => c.usedMb);
    OneCardTable(Card(g, totalMb), (c: GpuCard) => c.utilization);
  }

  lemma {:induction false} IdleSample(q: QueueState, g: int, totalMb: real)
    requires QueueInv(q) && q.running == Empty<Task>() && q.reserved == Empty<Task>()
    ensures SampleOf(q, [Card(g, totalMb)], []) == [EmptyCard(g, totalMb)]
  {
    OneCardReadings(g, totalMb);
    var n := Readings([Card(g, totalMb)]);
    assert GpuTasks(q) == [];
    assert GpuIndices([], n) == {g};
    OneIndex(GpuIndices([], n), g);
  }

  lemma {:induction false} FirstDecision(g: int, totalMb: real, history: seq<TimedSample>)
    requires totalMb > 0.0 && BatchRefinement.OnlyShows(history, EmptyCard(g, totalMb))
    ensures var view := View([EmptyCard(g, totalMb)], history);
      Decisions(Schedule([QueuedTask()], view, EMPTY_BATCH)) == [Decision(ID, [g])]
  {
    var gpu, t := EmptyCard(g, totalMb), QueuedTask();
    var view := View([gpu], history);
    BatchRefinement.PickOnIdleGpu(t, gpu, view, NO_PENDING);
    BatchRefinement.ScheduleStep([t], view, EMPTY_BATCH);
    assert [t][1..] == [];
  }

  /** The history the first batch sees holds at most the idle sample itself. */
  lemma {:induction false} FirstHistory(s: NodeState, snap: TimedSample, input: CycleInput, cfg: Config)
    requires s.samples == [] && s.inFlight == Some(snap)
    ensures forall i :: 0 <= i < |ViewOf(s, input, cfg).history| ==> ViewOf(s, input, cfg).history[i] == snap
  {
    HistoryRuns.ViewHistory(s, input, cfg);
    assert forall x :: x in s.samples + [snap] ==> x == snap;
  }

  function FirstInput(): CycleInput {
    CycleInput([], 0.0, 0.0, map[ID := 1])
  }

  lemma {:induction false} LaunchGives(g: int, cfg: Config)
    ensures QueueInv(WithQueued())
    ensures Launch(WithQueued(), [Decision(ID, [g])], map[ID := 1], 0.0, cfg) == (WithRunning(RunningTask(g)), true)
  {
    SubmitGives();
    var q, t, ds := WithQueued(), QueuedTask(), [Decision(ID, [g])];
    NodeSafety.LaunchUnfolded(q, t, [g], ds, map[ID := 1], 0.0, cfg);
    assert ds[1..] == [];
    var q1 := Reserve(q, ID, [g], None, 0.0);
    assert q.queued.Pop(ID) == Empty<Task>() by {
      assert q.queued.vals - {ID} == map[];
      assert IndexOf([ID], ID) == 0;
    }
    assert q1 == EMPTY_QUEUE.(reserved := Only(AsReserved(t, [g], None, 0.0)));
    assert q1.reserved.Pop(ID) == Empty<Task>() by {
      assert q1.reserved.vals - {ID} == map[];
      assert IndexOf([ID], ID) == 0;
    }
    assert Start(q1, ID, 1, 0.0) == WithRunning(RunningTask(g));
  }

  // ---------------------------------------------------------------------------
  // The reclaim
  // ---------------------------------------------------------------------------

  function Busy(g: int, mb: real): seq<GpuProcess> {
    [GpuProcess(1, g, mb, None)]
  }

  lemma {:induction false} BusySampleShows(g: int, totalMb: real, mb: real)
    requires QueueInv(WithRunning(RunningTask(g)))
    ensures var s := SampleOf(WithRunning(RunningTask(g)), [Card(g, totalMb)], Busy(g, mb));
      |s| == 1 && s[0].gpuIndex == g && s[0].totalMb == totalMb
      && s[0].pmeowTasks == [AllocationOf(RunningTask(g), g, mb, Some(1))]
  {
    var t, procs := RunningTask(g), Busy(g, mb);
    var q := WithRunning(t);
    OneCardReadings(g, totalMb);
    var n := Readings([Card(g, totalMb)]);
    var tasks := GpuTasks(q);
    assert tasks == [t];
    assert Init(tasks) == [] && Last(tasks) == t;
    var owners := PidOwners(tasks);
    assert owners == map[1 := t];
    assert Init(procs) == [];
    assert GpuIndices(procs, n) == {g};
    OneIndex(GpuIndices(procs, n), g);
    assert ProcessAllocations(owners, procs, g) == [AllocationOf(t, g, mb, Some(1))];
    assert Observed(owners, procs) == {(ID, g)};
    var claims := Claims(tasks);
    assert Claims([]) == [];
    assert PairsOf(t, [g]) == [(t, g)];
    assert claims == [(t, g)];
    assert Init(claims) == [];
    assert SilentAllocations(Observed(owners, procs), claims, g) == [];
  }

  lemma {:induction false} ReclaimGives(g: int, totalMb: real, peak: int, sample: Sample)
    requires peak > 0 && Reclaim.ReclaimTo(peak, totalMb).Some?
    requires |sample| == 1 && sample[0].gpuIndex == g && sample[0].totalMb == totalMb
    requires sample[0].pmeowTasks == [AllocationOf(RunningTask(g), g, peak as real, Some(1))]
    ensures Contribution(Reclaim.Updated(RunningTask(g), sample, 300.0), g) == Reclaim.ReclaimTo(peak, totalMb).value
  {
    var t := RunningTask(g);
    var rounds := [Reclaim.Round(sample, 300.0)];
    assert Init(rounds) == [] && Last(rounds) == rounds[0];
    assert Reclaim.UpdatedOver(t, rounds) == Reclaim.Updated(t, sample, 300.0);
    assert Init(sample[0].pmeowTasks) == [] && Last(sample[0].pmeowTasks).taskId == ID;
    assert Reclaim.LastIn(sample[0].pmeowTasks, ID) == Some(peak as real);
    assert Init(sample) == [] && Last(sample) == sample[0];
    assert Reclaim.ActualMb(sample, ID, g) == Some(peak as real);
    assert Reclaim.TotalMb(sample, g) == totalMb;
    assert Ceil(peak as real) == peak;
    var o := Reclaim.Observed(t, sample);
    assert Init([g]) == [] && Last([g]) == g;
    assert Reclaim.ObserveAll(map[], [g], ID, sample) == map[g := peak];
    assert o.autoPeakMb == Some(map[g := peak]);
    assert Reclaim.WindowOver(o, 300.0);
    var m := Reclaim.ReclaimedMap([g], map[g := peak], sample);
    assert m[g] == Reclaim.ReclaimTo(peak, totalMb);
  }

  // ---------------------------------------------------------------------------
  // The run
  // ---------------------------------------------------------------------------

  lemma {:induction false} FirstCycle(w: World, g: int, totalMb: real, cfg: Config)
    requires totalMb > 0.0 && QueueInv(WithQueued())
    requires w.node == NodeState(WithQueued(), None, [], Some(TimedSample(0.0, [EmptyCard(g, totalMb)])))
    ensures Next(w, CycleStep(FirstInput()), cfg).node.q == WithRunning(RunningTask(g))
  {
    var s, input := w.node, FirstInput();
    QuietTick(s.q);
    assert s.q.completions + [] == s.q.completions;
    assert s.q.(completions := s.q.completions) == s.q;
    var q := BeforeScheduling(s, input);
    assert q.running == Empty<Task>();
    assert q == WithQueued();
    assert q.queued.Values() == [QueuedTask()];
    FirstHistory(s, s.inFlight.value, input, cfg);
    FirstDecision(g, totalMb, ViewOf(s, input, cfg).history);
    LaunchGives(g, cfg);
  }

  lemma {:induction false} SecondCycle(w: World, g: int, sample: Sample, cfg: Config)
    requires QueueInv(WithRunning(RunningTask(g))) && w.node.q == WithRunning(RunningTask(g))
    requires w.node.inFlight == Some(TimedSample(300.0, sample))
    ensures Next(w, CycleStep(CycleInput([], 300.0, 300.0, map[])), cfg).node.q.Live()
         == map[ID := Reclaim.Updated(RunningTask(g), sample, 300.0)]
  {
    var s, input := w.node, CycleInput([], 300.0, 300.0, map[]);
    SecondCycleBefore(s, g, sample);
    var q := BeforeScheduling(s, input);
    assert DecisionsOf(s, input, cfg) == [];
    assert MarkReported(q).Live() == q.Live();
  }

  lemma {:induction false} SecondCycleBefore(s: NodeState, g: int, sample: Sample)
    requires QueueInv(WithRunning(RunningTask(g))) && s.q == WithRunning(RunningTask(g))
    requires s.inFlight == Some(TimedSample(300.0, sample))
    ensures var q := BeforeScheduling(s, CycleInput([], 300.0, 300.0, map[]));
      q.queued.Values() == [] && q.Live() == map[ID := Reclaim.Updated(RunningTask(g), sample, 300.0)]
  {
    QuietTick(s.q);
    assert s.q.(completions := s.q.completions + []) == s.q;
  }

  lemma {:induction false} AfterSubmit(totals: Totals, cfg: Config) returns (steps: seq<Step>, w: World)
    ensures Reached(steps, w, totals, cfg) && QueueInv(w.node.q)
    ensures w.node == NodeState(WithQueued(), None, [], None)
  {
    EmptyQueueInv();
    var step := SubmitStep(ExclusiveSpec(), ID, 0.0);
    SubmitDoes(cfg);
    ReachedNext([], START, step, totals, cfg);
    steps, w := [] + [step], Next(START, step, cfg);
  }

  lemma {:induction false} SubmitDoes(cfg: Config)
    ensures QueueInv(EMPTY_QUEUE) && EMPTY_QUEUE.Ids() == {}
    ensures Do(INITIAL, SubmitStep(ExclusiveSpec(), ID, 0.0), cfg) == NodeState(WithQueued(), None, [], None)
  {
    SubmitGives();
    assert SubmitErrorOf(INITIAL, ExclusiveSpec()).None?;
  }

  /** The exclusive task runs on GPU `g`. */
  lemma {:induction false} AfterLaunch(totals: Totals, cfg: Config, g: int) returns (steps: seq<Step>, w: World)
    requires g in totals && totals[g] > 0.0
    ensures Reached(steps, w, totals, cfg) && QueueInv(w.node.q)
    ensures w.node.q == WithRunning(RunningTask(g))
  {
    var before;
    steps, before := AfterSubmit(totals, cfg);
    var snapshot := SnapshotStep([Card(g, totals[g])], [], 0.0);
    var sampled := Next(before, snapshot, cfg);
    ReachedNext(steps, before, snapshot, totals, cfg);
    IdleSample(before.node.q, g, totals[g]);
    assert sampled.node == NodeState(WithQueued(), None, [], Some(TimedSample(0.0, [EmptyCard(g, totals[g])])));
    ReachedNext(steps + [snapshot], sampled, CycleStep(FirstInput()), totals, cfg);
    FirstCycle(sampled, g, totals[g], cfg);
    steps, w := steps + [snapshot] + [CycleStep(FirstInput())], Next(sampled, CycleStep(FirstInput()), cfg);
  }

  function BusySample(g: int, totalMb: real, peak: int): Sample
    requires QueueInv(WithRunning(RunningTask(g)))
  {
    SampleOf(WithRunning(RunningTask(g)), [Card(g, totalMb)], Busy(g, peak as real))
  }

  /** A snapshot shows the task using `peak` MB. */
  lemma {:induction false} AfterSampling(steps: seq<Step>, w: World, totals: Totals, cfg: Config, g: int, peak: int)
    returns (steps': seq<Step>, w': World)
    requires g in totals
    requires Reached(steps, w, totals, cfg) && QueueInv(w.node.q) && w.node.q == WithRunning(RunningTask(g))
    ensures Reached(steps', w', totals, cfg) && w'.node.q == w.node.q
    ensures w'.node.inFlight == Some(TimedSample(300.0, BusySample(g, totals[g], peak)))
  {
    var snapshot := SnapshotStep([Card(g, totals[g])], Busy(g, peak as real), 300.0);
    ReachedNext(steps, w, snapshot, totals, cfg);
    steps', w' := steps + [snapshot], Next(w, snapshot, cfg);
  }

  /** Its window is over, and the declaration follows the peak. */
  lemma {:induction false} AfterReclaim(steps: seq<Step>, w: World, totals: Totals, cfg: Config, g: int, peak: int)
    returns (steps': seq<Step>, w': World)
    requires g in totals && peak > 0 && Reclaim.ReclaimTo(peak, totals[g]).Some?
    requires Reached(steps, w, totals, cfg) && QueueInv(w.node.q) && w.node.q == WithRunning(RunningTask(g))
    requires w.node.inFlight == Some(TimedSample(300.0, BusySample(g, totals[g], peak)))
    ensures Reached(steps', w', totals, cfg)
    ensures Load(w'.node.q.Live(), g) == Reclaim.ReclaimTo(peak, totals[g]).value
  {
    var sample := BusySample(g, totals[g], peak);
    var cycle := CycleStep(CycleInput([], 300.0, 300.0, map[]));
    ReachedNext(steps, w, cycle, totals, cfg);
    steps', w' := steps + [cycle], Next(w, cycle, cfg);
    SecondCycle(w, g, sample, cfg);
    BusySampleShows(g, totals[g], peak as real);
    ReclaimGives(g, totals[g], peak, sample);
    LoadOnlyOne(w'.node.q.Live(), ID, g);
  }

  /** Whatever peak the card lets through, some run leaves what it is reclaimed to declared on the card. */
  lemma {:induction false} ReclaimIsReached(totals: Totals, cfg: Config, g: int, peak: int)
    requires g in totals && peak > 0 && Reclaim.ReclaimTo(peak, totals[g]).Some?
    ensures exists steps, w ::
      Reached(steps, w, totals, cfg) && Load(w.node.q.Live(), g) == Reclaim.ReclaimTo(peak, totals[g]).value
  {
    var steps, w := AfterLaunch(totals, cfg, g);
    steps, w := AfterSampling(steps, w, totals, cfg, g, peak);
    steps, w := AfterReclaim(steps, w, totals, cfg, g, peak);
  }

  /** On a card that is not safe to reclaim on, the limit is above 0.98 of the card and some run reaches it. */
  lemma {:induction false} UnsafeCardOverflows(totals: Totals, cfg: Config, g: int)
    requires g in totals && totals[g] >= 0.0 && !Reclaim.ReclaimSafe(totals[g])
    ensures Limit(totals, g) > 0.98 * totals[g]
    ensures exists steps, w :: Reached(steps, w, totals, cfg) && Load(w.node.q.Live(), g) as real == Limit(totals, g)
  {
    Reclaim.LargestReclaimDecides(totals[g]);
    ReclaimIsReached(totals, cfg, g, Reclaim.LargestPeak(totals[g]));
    var steps, w :| Reached(steps, w, totals, cfg) && Load(w.node.q.Live(), g) == Reclaim.LargestReclaim(totals[g]);
    assert Load(w.node.q.Live(), g) as real == Limit(totals, g);
  }

  ghost predicate CapacityHolds(totals: Totals, cfg: Config, g: int) {
    forall steps, w :: Reached(steps, w, totals, cfg) ==> WithinCapacity(w, totals, g)
  }

  ghost predicate WithinCapacity(w: World, totals: Totals, g: int) {
    Load(w.node.q.Live(), g) as real <= Capacity(totals, g)
  }

  /** The exact condition, card by card and whatever the other cards are: capacity holds on the card in every reachable
      state of every run if and only if the card is safe to reclaim on, which one comparison decides
      (`Reclaim.ReclaimSafeExactly`). */
  lemma {:induction false} CapacityExactly(totals: Totals, cfg: Config, g: int)
    requires g in totals && totals[g] >= 0.0
    ensures CapacityHolds(totals, cfg, g) <==> Reclaim.ReclaimSafe(totals[g])
  {
    if Reclaim.ReclaimSafe(totals[g]) {
      forall steps, w | Reached(steps, w, totals, cfg)
        ensures WithinCapacity(w, totals, g)
      {
        CapacityOverRuns(steps, w, totals, cfg, g);
      }
    } else {
      UnsafeCardOverflows(totals, cfg, g);
      var steps, w :| Reached(steps, w, totals, cfg) && Load(w.node.q.Live(), g) as real == Limit(totals, g);
      assert !WithinCapacity(w, totals, g);
    }
  }
}
