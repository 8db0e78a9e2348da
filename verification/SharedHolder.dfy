/** A run in which a GPU that is held exclusively has another live task: a shared one that reserves nothing, queued
    ahead of the holder and decided in the same batch. */
module SharedHolder {
  import opened Basics
  import opened Models
  import opened OrderedDicts
  import opened QueueSpec
  import opened Scheduling
  import opened SchedulingFacts
  import opened BatchRefinement
  import opened Node
  import opened Runs
  import opened Safety
  import opened NodeSafety
  import opened RunSafety
  import opened CapacityLimit
  import opened ExclusiveRuns
  import Sorting

  const FREE_ID: TaskId := "a"
  const WHOLE_ID: TaskId := "b"

  function FreeSpec(): TaskSpec {
    TaskSpec(Foreground, 0, Some(0), Shared, 1, None, 10)
  }

  function WholeSpec(): TaskSpec {
    TaskSpec(Foreground, 0, None, ExclusiveAuto, 1, None, 10)
  }

  function FreeTask(): Task {
    NewTask(Normalized(FreeSpec()), FREE_ID, 0.0)
  }

  function WholeTask(): Task {
    NewTask(Normalized(WholeSpec()), WHOLE_ID, 1.0)
  }

  function FreeQueued(): OrderedDict<Task> {
    OrderedDict([FREE_ID], map[FREE_ID := FreeTask()])
  }

  function BothQueued(): OrderedDict<Task> {
    OrderedDict([FREE_ID, WHOLE_ID], map[FREE_ID := FreeTask(), WHOLE_ID := WholeTask()])
  }

  lemma {:induction false} SubmitFirst()
    ensures QueueInv(EMPTY_QUEUE) && EMPTY_QUEUE.Ids() == {}
    ensures Submit(EMPTY_QUEUE, Normalized(FreeSpec()), FREE_ID, 0.0) == EMPTY_QUEUE.(queued := FreeQueued())
  {
  }

  lemma {:induction false} SubmitSecond()
    ensures QueueInv(EMPTY_QUEUE.(queued := FreeQueued())) && WHOLE_ID !in EMPTY_QUEUE.(queued := FreeQueued()).Ids()
    ensures Submit(EMPTY_QUEUE.(queued := FreeQueued()), Normalized(WholeSpec()), WHOLE_ID, 1.0)
         == EMPTY_QUEUE.(queued := BothQueued())
  {
    SubmitFirst();
    var q := EMPTY_QUEUE.(queued := FreeQueued());
    var d := Put(q.queued, WHOLE_ID, WholeTask());
    assert d == BothQueued();
    var items := d.Items();
    assert items == [(FREE_ID, FreeTask()), (WHOLE_ID, WholeTask())];
    assert items[1..] == [items[1]];
    assert items[1..][1..] == items[2..];
    assert Sorting.StableSort(items[1..], KeyLe) == [items[1]];
    assert Sorting.StableSort(items, KeyLe) == items;
    assert Reordered(d).order == [FREE_ID, WHOLE_ID];
  }

  function Queue(): QueueState {
    EMPTY_QUEUE.(queued := BothQueued())
  }

  lemma {:induction false} QueueOk()
    ensures QueueInv(Queue()) && Queue().Live() == map[] && Queue().queued.Values() == [FreeTask(), WholeTask()]
    ensures QueueInv(EMPTY_QUEUE.(queued := FreeQueued()))
  {
    SubmitSecond();
  }

  function Both(g: int): seq<Decision> {
    [Decision(FREE_ID, [g]), Decision(WHOLE_ID, [g])]
  }

  lemma {:induction false} BothDecided(g: int, totalMb: real, history: seq<TimedSample>)
    requires QueueInv(Queue()) && totalMb > 0.0 && OnlyShows(history, EmptyCard(g, totalMb))
    ensures DecisionsOn(Queue(), View([EmptyCard(g, totalMb)], history)) == Both(g)
  {
    QueueOk();
    ZeroReservationWitness(FreeTask(), WholeTask(), EmptyCard(g, totalMb), history);
  }

  function Reservation(t: Task, gpus: seq<int>, clock: real, cfg: Config): Task {
    AsReserved(t, gpus, Some(clock + cfg.attachTimeout), clock)
  }

  lemma {:induction false} LaunchFirst(q: QueueState, t: Task, gpus: seq<int>, ds: seq<Decision>,
        pids: map<TaskId, int>, clock: real, cfg: Config) returns (r: QueueState)
    requires QueueInv(q) && t.launchMode.Foreground? && t.id in q.queued.vals && q.queued.vals[t.id] == t
    requires ds != [] && ds[0] == Decision(t.id, gpus)
    ensures QueueInv(r) && r.queued.vals == q.queued.vals - {t.id}
    ensures r.Live() == q.Live()[t.id := Reservation(t, gpus, clock, cfg)]
    ensures Launch(q, ds, pids, clock, cfg) == Launch(r, ds[1..], pids, clock, cfg)
  {
    LaunchUnfolded(q, t, gpus, ds, pids, clock, cfg);
    ReserveLive(q, t.id, gpus, DeadlineFor(t, clock, cfg), clock);
    r := Reserve(q, t.id, gpus, DeadlineFor(t, clock, cfg), clock);
  }

  lemma {:induction false} LaunchNone(q: QueueState, ds: seq<Decision>, pids: map<TaskId, int>, clock: real, cfg: Config)
    requires QueueInv(q) && |ds| == 0
    ensures Launch(q, ds, pids, clock, cfg) == (q, true)
  {
  }

  lemma {:induction false} LaunchTwo(q: QueueState, a: Task, b: Task, gpus: seq<int>, ds: seq<Decision>,
        pids: map<TaskId, int>, clock: real, cfg: Config)
    requires QueueInv(q) && a.id != b.id && a.launchMode.Foreground? && b.launchMode.Foreground?
    requires a.id in q.queued.vals && q.queued.vals[a.id] == a && b.id in q.queued.vals && q.queued.vals[b.id] == b
    requires |ds| == 2 && ds[0] == Decision(a.id, gpus) && ds[1] == Decision(b.id, gpus)
    ensures Launch(q, ds, pids, clock, cfg).0.Live()
         == q.Live()[a.id := Reservation(a, gpus, clock, cfg)][b.id := Reservation(b, gpus, clock, cfg)]
  {
    var q1 := LaunchFirst(q, a, gpus, ds, pids, clock, cfg);
    var q2 := LaunchFirst(q1, b, gpus, ds[1..], pids, clock, cfg);
    LaunchNone(q2, ds[1..][1..], pids, clock, cfg);
  }

  /** A cycle that finds nothing ended and nothing running schedules the queue as it is. */
  lemma {:induction false} NothingToSettle(s: NodeState, input: CycleInput)
    requires QueueInv(s.q) && s.inFlight.Some? && input.exits == []
    requires s.q.completions == [] && s.q.runtimes == [] && s.q.terminal == Empty<Task>() && s.q.running == Empty<Task>()
    ensures BeforeScheduling(s, input) == s.q
  {
    QuietTick(s.q);
    assert s.q.(completions := s.q.completions + input.exits) == s.q;
  }

  lemma {:induction false} BothDecidedIn(s: NodeState, input: CycleInput, g: int, totalMb: real, cfg: Config)
    requires totalMb > 0.0 && QueueInv(Queue()) && input.exits == []
    requires s.q == Queue() && s.samples == [] && s.inFlight.Some? && s.inFlight.value.sample == [EmptyCard(g, totalMb)]
    ensures BeforeScheduling(s, input) == Queue() && DecisionsOf(s, input, cfg) == Both(g)
  {
    NothingToSettle(s, input);
    FirstHistory(s, s.inFlight.value, input, cfg);
    BothDecided(g, totalMb, ViewOf(s, input, cfg).history);
  }

  function BothHeld(g: int, clock: real, cfg: Config): map<TaskId, Task> {
    map[FREE_ID := Reservation(FreeTask(), [g], clock, cfg), WHOLE_ID := Reservation(WholeTask(), [g], clock, cfg)]
  }

  lemma {:induction false} BothLaunchedIn(s: NodeState, input: CycleInput, g: int, cfg: Config)
    requires QueueInv(s.q) && s.inFlight.Some? && QueueInv(Queue())
    requires BeforeScheduling(s, input) == Queue() && DecisionsOf(s, input, cfg) == Both(g)
    ensures Launched(s, input, cfg).0.Live() == BothHeld(g, input.clock, cfg)
  {
    QueueOk();
    LaunchTwo(Queue(), FreeTask(), WholeTask(), [g], Both(g), input.pids, input.clock, cfg);
  }

  lemma {:induction false} CycleLive(w: World, input: CycleInput, cfg: Config)
    requires QueueInv(w.node.q) && w.node.inFlight.Some?
    ensures Next(w, CycleStep(input), cfg).node.q.Live() == Launched(w.node, input, cfg).0.Live()
  {
    MarkingKeepsPlaces(Launched(w.node, input, cfg).0);
  }

  lemma {:induction false} AfterSubmits(totals: Totals, cfg: Config) returns (steps: seq<Step>, w: World)
    ensures Reached(steps, w, totals, cfg) && QueueInv(w.node.q)
    ensures w.node == NodeState(Queue(), None, [], None)
  {
    EmptyQueueInv();
    SubmitFirst();
    SubmitSecond();
    var first, second := SubmitStep(FreeSpec(), FREE_ID, 0.0), SubmitStep(WholeSpec(), WHOLE_ID, 1.0);
    ReachedNext([], START, first, totals, cfg);
    var w1 := Next(START, first, cfg);
    assert w1.node == NodeState(EMPTY_QUEUE.(queued := FreeQueued()), None, [], None);
    ReachedNext([] + [first], w1, second, totals, cfg);
    steps, w := [] + [first] + [second], Next(w1, second, cfg);
  }

  lemma {:induction false} HeldShares(w: World, g: int, clock: real, cfg: Config)
    requires QueueInv(w.node.q) && w.node.q.Live() == BothHeld(g, clock, cfg)
    ensures Shares(w, FREE_ID, WHOLE_ID, g)
  {
  }

  lemma {:induction false} CycleShares(w: World, input: CycleInput, g: int, totalMb: real, cfg: Config)
    requires totalMb > 0.0 && QueueInv(w.node.q) && input.exits == []
    requires w.node.q == Queue() && w.node.samples == []
    requires w.node.inFlight.Some? && w.node.inFlight.value.sample == [EmptyCard(g, totalMb)]
    ensures Shares(Next(w, CycleStep(input), cfg), FREE_ID, WHOLE_ID, g)
  {
    BothDecidedIn(w.node, input, g, totalMb, cfg);
    BothLaunchedIn(w.node, input, g, cfg);
    CycleLive(w, input, cfg);
    HeldShares(Next(w, CycleStep(input), cfg), g, input.clock, cfg);
  }

  lemma {:induction false} AfterSnapshot(totals: Totals, cfg: Config, g: int) returns (steps: seq<Step>, w: World)
    requires g in totals
    ensures Reached(steps, w, totals, cfg) && QueueInv(w.node.q)
    ensures w.node.q == Queue() && w.node.samples == []
    ensures w.node.inFlight.Some? && w.node.inFlight.value.sample == [EmptyCard(g, totals[g])]
  {
    var before;
    steps, before := AfterSubmits(totals, cfg);
    var snapshot := SnapshotStep([Card(g, totals[g])], [], 0.0);
    ReachedNext(steps, before, snapshot, totals, cfg);
    IdleSample(before.node.q, g, totals[g]);
    steps, w := steps + [snapshot], Next(before, snapshot, cfg);
  }

  lemma {:induction false} CycleAfterSnapshot(totals: Totals, cfg: Config, g: int, input: CycleInput)
    returns (steps: seq<Step>, w: World)
    requires g in totals && totals[g] > 0.0 && input.exits == []
    ensures Reached(steps, w, totals, cfg) && Shares(w, FREE_ID, WHOLE_ID, g)
  {
    var before;
    steps, before := AfterSnapshot(totals, cfg, g);
    ReachedNext(steps, before, CycleStep(input), totals, cfg);
    CycleShares(before, input, g, totals[g], cfg);
    steps, w := steps + [CycleStep(input)], Next(before, CycleStep(input), cfg);
  }

  /** On any card, from the start: two submissions, a snapshot and a cycle. */
  lemma {:induction false} HolderIsNotAlone(totals: Totals, cfg: Config, g: int)
    requires g in totals && totals[g] > 0.0
    ensures exists steps, w :: Reached(steps, w, totals, cfg) && Shares(w, FREE_ID, WHOLE_ID, g)
  {
    var steps, w := CycleAfterSnapshot(totals, cfg, g, CycleInput([], 0.0, 0.0, map[]));
  }
}
