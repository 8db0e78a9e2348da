/** The exact condition for "exclusive means alone" over runs: from any reached state the next cycle keeps every exclusive
    holder alone, on every node, if and only if the queue has no exclusive task behind a shared one that reserves
    nothing. */
module HolderRuns {
  import opened Basics
  import opened Models
  import opened OrderedDicts
  import opened QueueSpec
  import opened Attribution
  import opened AttributionFacts
  import opened Scheduling
  import opened BatchRefinement
  import opened BatchLimit
  import opened Node
  import opened Runs
  import opened Safety
  import opened NodeSafety
  import opened RunSafety
  import opened ExclusiveRuns
  import opened Launches
  import opened CrowdNodes
  import HistoryRuns

  // ---------------------------------------------------------------------------
  // More cards
  // ---------------------------------------------------------------------------

  /** `more` is the node with `totals`, and perhaps further cards. */
  ghost predicate Extends(totals: Totals, more: Totals) {
    forall g :: g in totals ==> g in more && more[g] == totals[g]
  }

  lemma {:induction false} StillLeads(before: World, step: Step, w: World, totals: Totals, more: Totals, cfg: Config)
    requires Leads(before, step, w, totals, cfg) && Extends(totals, more)
    ensures Leads(before, step, w, more, cfg)
  {
  }

  /** A run on a node is a run on a node with further cards. */
  lemma {:induction false} StillReachedInOrder(steps: seq<Step>, w: World, totals: Totals, more: Totals, cfg: Config)
    requires ReachedInOrder(steps, w, totals, cfg) && Extends(totals, more)
    ensures ReachedInOrder(steps, w, more, cfg)
    decreases |steps|
  {
    if steps != [] {
      var before: World :|
        && ReachedInOrder(Init(steps), before, totals, cfg) && Leads(before, Last(steps), w, totals, cfg)
        && CycleInOrder(before, Last(steps));
      StillReachedInOrder(Init(steps), before, totals, more, cfg);
      StillLeads(before, Last(steps), w, totals, more, cfg);
    }
  }

  /** The node with `n` more small cards, the first of them `base`. */
  function WithCrowd(totals: Totals, base: int, n: nat): Totals {
    totals + map g | base <= g < base + n && InCrowd(base, n, g) :: 1.0
  }

  lemma {:induction false} Above(s: set<int>) returns (b: int)
    ensures forall x :: x in s ==> x < b
    decreases |s|
  {
    if s == {} {
      b := 0;
    } else {
      var x := Element(s);
      b := Above(s - {x});
      b := Max(b, x + 1);
      forall y | y in s ensures y < b { if y != x { assert y in s - {x}; } }
    }
  }

  ghost function LiveGpus(live: map<TaskId, Task>): set<int> {
    set k, g | k in live && live[k].assignedGpus.Some? && g in live[k].assignedGpus.value :: g
  }

  ghost function ShownGpus(samples: seq<TimedSample>): set<int> {
    set i, j | 0 <= i < |samples| && 0 <= j < |samples[i].sample| :: samples[i].sample[j].gpuIndex
  }

  /** An index from which on no card is known, used or remembered. */
  ghost predicate Fresh(base: int, totals: Totals, s: NodeState)
    requires QueueInv(s.q)
  {
    && (forall g :: g in totals ==> g < base)
    && AllBelow(s.q.Live(), base)
    && forall i, j :: 0 <= i < |s.samples| && 0 <= j < |s.samples[i].sample| ==> s.samples[i].sample[j].gpuIndex < base
  }

  lemma {:induction false} FreshIndex(totals: Totals, s: NodeState) returns (base: int)
    requires QueueInv(s.q)
    ensures Fresh(base, totals, s)
  {
    base := Above(totals.Keys + LiveGpus(s.q.Live()) + ShownGpus(s.samples));
    var known := totals.Keys + LiveGpus(s.q.Live()) + ShownGpus(s.samples);
    forall k, g | k in s.q.Live() && AssignedTo(s.q.Live()[k], g)
      ensures g < base
    {
      assert g in known;
    }
    forall i, j | 0 <= i < |s.samples| && 0 <= j < |s.samples[i].sample|
      ensures s.samples[i].sample[j].gpuIndex < base
    {
      assert s.samples[i].sample[j].gpuIndex in known;
    }
  }

  // ---------------------------------------------------------------------------
  // The snapshot of the crowd
  // ---------------------------------------------------------------------------

  function CrowdSnapshot(base: int, n: nat): Step {
    SnapshotStep(CrowdCards(base, n), [], 0.0)
  }

  lemma {:induction false} CrowdEnabled(w: World, totals: Totals, base: int, n: nat)
    requires QueueInv(w.node.q) && Fresh(base, totals, w.node)
    ensures Extends(totals, WithCrowd(totals, base, n)) && Enabled(w, CrowdSnapshot(base, n), WithCrowd(totals, base, n))
  {
    var more, cards := WithCrowd(totals, base, n), CrowdCards(base, n);
    forall c | c in cards
      ensures c.index in more && c.totalMb == more[c.index]
    {
      var i :| 0 <= i < n && cards[i] == c;
      assert c == CrowdCard(base, i) && InCrowd(base, n, c.index);
    }
  }

  /** The state with the crowd in flight. */
  function Seeing(w: World, base: int, n: nat): World {
    w.(node := w.node.(inFlight := Some(TimedSample(0.0, Crowd(base, n)))))
  }

  lemma {:induction false} CrowdLeads(w: World, totals: Totals, base: int, n: nat, cfg: Config)
    requires QueueInv(w.node.q) && Fresh(base, totals, w.node)
    ensures Leads(w, CrowdSnapshot(base, n), Seeing(w, base, n), WithCrowd(totals, base, n), cfg)
  {
    CrowdEnabled(w, totals, base, n);
    CrowdSample(w.node.q, base, n);
  }

  lemma {:induction false} CrowdSeen(w: World, totals: Totals, base: int, n: nat, input: CycleInput, cfg: Config)
    requires QueueInv(w.node.q) && Fresh(base, totals, w.node)
    ensures CrowdLike(ViewOf(Seeing(w, base, n).node, input, cfg), base, n)
  {
    var s := Seeing(w, base, n).node;
    var h := ViewOf(s, input, cfg).history;
    HistoryRuns.ViewHistory(s, input, cfg);
    forall i | 0 <= i < |h|
      ensures QuietSample(h[i].sample, base, n)
    {
      assert h[i] in s.samples + [s.inFlight.value];
      var k :| 0 <= k < |s.samples + [s.inFlight.value]| && (s.samples + [s.inFlight.value])[k] == h[i];
    }
  }

  // ---------------------------------------------------------------------------
  // The cycle
  // ---------------------------------------------------------------------------

  /** Every launch of the cycle succeeds. */
  function CrowdCycle(q: QueueState): CycleInput {
    CycleInput([], 0.0, 0.0, map k | k in q.queued.vals :: 1)
  }

  ghost predicate DistinctDecisions(ds: seq<Decision>) {
    forall x, y :: 0 <= x < y < |ds| ==> ds[x].taskId != ds[y].taskId
  }

  lemma {:induction false} NotNamed(tasks: seq<Task>, ds: seq<Decision>)
    requires tasks != [] && DistinctIds(tasks) && AllNamed(ds, tasks[1..])
    ensures forall y :: 0 <= y < |ds| ==> ds[y].taskId != tasks[0].id
  {
    forall y | 0 <= y < |ds|
      ensures ds[y].taskId != tasks[0].id
    {
      assert Named(tasks[1..], ds[y].taskId);
      var j :| 0 <= j < |tasks[1..]| && NamedAt(tasks[1..], j, ds[y].taskId);
      assert tasks[j + 1].id != tasks[0].id;
    }
  }

  /** Tasks with distinct ids get one decision each at most. */
  lemma {:induction false} DecidedOnce(tasks: seq<Task>, view: View, batch: Batch)
    requires DistinctIds(tasks)
    ensures DistinctDecisions(Decisions(Schedule(tasks, view, batch)))
    decreases |tasks|
  {
    if tasks != [] {
      var e := Evaluate(tasks[0], view, batch);
      var rest := Decisions(Schedule(tasks[1..], view, After(tasks[0], e, batch)));
      forall i, j | 0 <= i < j < |tasks[1..]|
        ensures tasks[1..][i].id != tasks[1..][j].id
      {
        assert tasks[i + 1].id != tasks[j + 1].id;
      }
      DecidedOnce(tasks[1..], view, After(tasks[0], e, batch));
      DecisionsFromTasks(tasks[1..], view, After(tasks[0], e, batch));
      NotNamed(tasks, rest);
      ScheduleStep(tasks, view, batch);
    }
  }

  lemma {:induction false} AllLaunchable(q: QueueState, view: View, pids: map<TaskId, int>)
    requires QueueInv(q) && AllQueuedOk(q) && pids.Keys == q.queued.vals.Keys
    ensures Launchable(q, DecisionsOn(q, view), pids)
  {
    var tasks, ds := q.queued.Values(), DecisionsOn(q, view);
    QueuedAreStill(q);
    DecidedOnce(tasks, view, EMPTY_BATCH);
    DecisionsFromTasks(tasks, view, EMPTY_BATCH);
    forall y | 0 <= y < |ds|
      ensures LaunchableAt(q, pids, ds[y])
    {
      assert Named(tasks, ds[y].taskId);
      var j :| 0 <= j < |tasks| && NamedAt(tasks, j, ds[y].taskId);
    }
  }

  /** A task that was decided as an exclusive one, once it is live. */
  lemma {:induction false} ServedWhole(queued: map<TaskId, Task>, live: map<TaskId, Task>, d: Decision, g: int)
    requires Served(queued, live, d) && QueuedOk(queued[d.taskId]) && RequestOf(queued[d.taskId]) == WholeGpu
    requires g in d.gpuIds
    ensures AssignedTo(live[d.taskId], g) && ExclusiveActive(live[d.taskId], g)
  {
  }

  /** Two launched decisions that overlap share a GPU. */
  lemma {:induction false} OverlapShares(queued: map<TaskId, Task>, u: World, ds: seq<Decision>, id: TaskId)
    returns (a: TaskId, b: TaskId, g: int)
    requires DistinctDecisions(ds) && Overlap({}, ds, id) && QueueInv(u.node.q)
    requires forall y :: 0 <= y < |ds| ==> Served(queued, u.node.q.Live(), ds[y])
    requires id in queued && QueuedOk(queued[id]) && RequestOf(queued[id]) == WholeGpu
    ensures Shares(u, a, b, g)
  {
    var y;
    y, g :| 0 <= y < |ds| && ds[y].taskId == id && GivenAgain({}, ds, y, g);
    var x :| 0 <= x < y && g in ds[x].gpuIds;
    assert Served(queued, u.node.q.Live(), ds[x]) && Served(queued, u.node.q.Live(), ds[y]);
    a, b := ds[x].taskId, id;
    ServedWhole(queued, u.node.q.Live(), ds[y], g);
  }

  /** Where the decisions on `q` overlap and every launch succeeds, a GPU is shared in the end. */
  lemma {:induction false} BatchShares(q: QueueState, view: View, id: TaskId, u: World, input: CycleInput, cfg: Config)
    returns (a: TaskId, b: TaskId, g: int)
    requires QueueInv(q) && AllQueuedOk(q) && QueueInv(u.node.q) && input.pids.Keys == q.queued.vals.Keys
    requires id in q.queued.vals && RequestOf(q.queued.vals[id]) == WholeGpu
    requires Overlap({}, DecisionsOn(q, view), id)
    requires u.node.q.Live() == Launch(q, DecisionsOn(q, view), input.pids, input.clock, cfg).0.Live()
    ensures Shares(u, a, b, g)
  {
    var ds := DecisionsOn(q, view);
    AllLaunchable(q, view, input.pids);
    forall y | 0 <= y < |ds|
      ensures Served(q.queued.vals, u.node.q.Live(), ds[y])
    {
      LaunchReaches(q, ds, input.pids, input.clock, cfg, y, ds[y]);
    }
    a, b, g := OverlapShares(q.queued.vals, u, ds, id);
  }

  lemma {:induction false} QueueKept(s: NodeState, input: CycleInput)
    requires QueueInv(s.q) && s.inFlight.Some?
    ensures BeforeScheduling(s, input).queued == s.q.queued
  {
    TickLive(s.q.(completions := s.q.completions + input.exits));
  }

  /** A cycle is a batch on its queue. */
  lemma {:induction false} CycleIsBatch(v: World, input: CycleInput, u: World, cfg: Config)
    returns (q: QueueState, view: View)
    requires QueueInv(v.node.q) && v.node.inFlight.Some? && u == Next(v, CycleStep(input), cfg)
    ensures QueueInv(q) && QueueInv(u.node.q) && q.queued == v.node.q.queued && view == ViewOf(v.node, input, cfg)
    ensures u.node.q.Live() == Launch(q, DecisionsOn(q, view), input.pids, input.clock, cfg).0.Live()
  {
    q, view := BeforeScheduling(v.node, input), ViewOf(v.node, input, cfg);
    QueueKept(v.node, input);
    AfterCycle(v, input, cfg);
  }

  /** What the queue does with every view of the crowd. */
  ghost predicate OverlapsOn(tasks: seq<Task>, base: int, n: nat, id: TaskId) {
    forall view :: CrowdLike(view, base, n) ==> Overlap({}, Decisions(Schedule(tasks, view, EMPTY_BATCH)), id)
  }

  lemma {:induction false} CrowdShares(w: World, totals: Totals, base: int, n: nat, id: TaskId, u: World, cfg: Config)
    returns (a: TaskId, b: TaskId, g: int)
    requires QueueInv(w.node.q) && AllQueuedOk(w.node.q) && Fresh(base, totals, w.node)
    requires id in w.node.q.queued.vals && RequestOf(w.node.q.queued.vals[id]) == WholeGpu
    requires OverlapsOn(w.node.q.queued.Values(), base, n, id)
    requires u == Next(Seeing(w, base, n), CycleStep(CrowdCycle(w.node.q)), cfg)
    ensures Shares(u, a, b, g)
  {
    var v, input := Seeing(w, base, n), CrowdCycle(w.node.q);
    CrowdSeen(w, totals, base, n, input, cfg);
    var q, view := CycleIsBatch(v, input, u, cfg);
    assert CrowdLike(view, base, n);
    a, b, g := BatchShares(q, view, id, u, input, cfg);
  }

  // ---------------------------------------------------------------------------
  // The exact condition
  // ---------------------------------------------------------------------------

  /** No queued task asks for a negative number of GPUs. */
  ghost predicate CountsOk(q: QueueState) {
    forall k :: k in q.queued.vals ==> q.queued.vals[k].requireGpuCount >= 0
  }

  lemma {:induction false} QueueAskable(q: QueueState)
    requires QueueInv(q) && AllQueuedOk(q) && CountsOk(q)
    ensures AllAskable(q.queued.Values()) && DistinctIds(q.queued.Values())
  {
    QueuedAreStill(q);
  }

  /** The node with the cards of `more` takes a snapshot in `w` and then runs a cycle, which ends in `u`. */
  ghost predicate NextCycle(w: World, u: World, more: Totals, cfg: Config) {
    exists snapshot: Step, v: World, cycle: Step ::
      && snapshot.SnapshotStep? && Leads(w, snapshot, v, more, cfg)
      && cycle.CycleStep? && Leads(v, cycle, u, more, cfg)
  }

  /** Whatever further cards the node has and whatever its snapshot shows, the next cycle leaves every exclusive holder
      alone. */
  ghost predicate NextIsAlone(w: World, totals: Totals, cfg: Config) {
    forall more, u :: Extends(totals, more) && NextCycle(w, u, more, cfg) ==> AllAlone(u)
  }

  lemma {:induction false} CycleLeads(v: World, input: CycleInput, totals: Totals, cfg: Config) returns (u: World)
    requires QueueInv(v.node.q) && v.node.inFlight.Some?
    ensures Leads(v, CycleStep(input), u, totals, cfg) && u == Next(v, CycleStep(input), cfg)
  {
    u := Next(v, CycleStep(input), cfg);
  }

  lemma {:induction false} CycleFollows(w: World, snapshot: Step, v: World, cycle: Step, u: World, more: Totals, cfg: Config)
    requires snapshot.SnapshotStep? && Leads(w, snapshot, v, more, cfg)
    requires cycle.CycleStep? && Leads(v, cycle, u, more, cfg)
    ensures NextCycle(w, u, more, cfg)
  {
  }

  lemma {:induction false} SomeShares(u: World, a: TaskId, b: TaskId, g: int)
    requires Shares(u, a, b, g)
    ensures !AllAlone(u)
  {
  }

  /** The crowd's snapshot and a cycle lead from `w` to a state that shares a GPU. */
  lemma {:induction false} CrowdLeadsTo(w: World, totals: Totals, base: int, n: nat, id: TaskId, cfg: Config)
    returns (u: World)
    requires QueueInv(w.node.q) && AllQueuedOk(w.node.q) && Fresh(base, totals, w.node)
    requires id in w.node.q.queued.vals && RequestOf(w.node.q.queued.vals[id]) == WholeGpu
    requires OverlapsOn(w.node.q.queued.Values(), base, n, id)
    ensures NextCycle(w, u, WithCrowd(totals, base, n), cfg) && !AllAlone(u)
  {
    var more, input := WithCrowd(totals, base, n), CrowdCycle(w.node.q);
    CrowdLeads(w, totals, base, n, cfg);
    u := CycleLeads(Seeing(w, base, n), input, more, cfg);
    CycleFollows(w, CrowdSnapshot(base, n), Seeing(w, base, n), CycleStep(input), u, more, cfg);
    var a, b, g := CrowdShares(w, totals, base, n, id, u, cfg);
    SomeShares(u, a, b, g);
  }

  lemma {:induction false} QueueOverlaps(q: QueueState) returns (n: nat, id: TaskId)
    requires QueueInv(q) && AllQueuedOk(q) && CountsOk(q) && !NothingBeforeWhole(q.queued.Values())
    ensures id in q.queued.vals && RequestOf(q.queued.vals[id]) == WholeGpu
    ensures forall base :: OverlapsOn(q.queued.Values(), base, n, id)
  {
    var tasks, j := q.queued.Values(), 0;
    QueueAskable(q);
    n, j := CrowdOverlaps(tasks);
    id := tasks[j].id;
  }

  /** From any state of any run, a queue that is out of order leads in two steps to a GPU shared with its exclusive
      holder. */
  lemma {:induction false} OutOfOrderShares(steps: seq<Step>, w: World, totals: Totals, cfg: Config)
    requires Reached(steps, w, totals, cfg) && QueueInv(w.node.q)
    requires CountsOk(w.node.q) && !NothingBeforeWhole(w.node.q.queued.Values())
    ensures !NextIsAlone(w, totals, cfg)
  {
    ReachedInv(steps, w, totals, cfg);
    var n, id := QueueOverlaps(w.node.q);
    var base := FreshIndex(totals, w.node);
    CrowdEnabled(w, totals, base, n);
    var u := CrowdLeadsTo(w, totals, base, n, id, cfg);
  }

  lemma {:induction false} InOrderNext(steps: seq<Step>, before: World, step: Step, w: World, totals: Totals, cfg: Config)
    requires ReachedInOrder(steps, before, totals, cfg) && Leads(before, step, w, totals, cfg) && CycleInOrder(before, step)
    ensures ReachedInOrder(steps + [step], w, totals, cfg)
  {
    InitSnoc(steps, step);
  }

  lemma {:induction false} SnapshotKeepsQueue(w: World, snapshot: Step, v: World, totals: Totals, cfg: Config)
    requires snapshot.SnapshotStep? && Leads(w, snapshot, v, totals, cfg)
    ensures v.node.q == w.node.q
  {
  }

  lemma {:induction false} InOrderIsAlone(steps: seq<Step>, w: World, totals: Totals, cfg: Config)
    requires ReachedInOrder(steps, w, totals, cfg) && QueueInv(w.node.q)
    requires NothingBeforeWhole(w.node.q.queued.Values())
    ensures NextIsAlone(w, totals, cfg)
  {
    forall more, u | Extends(totals, more) && NextCycle(w, u, more, cfg)
      ensures AllAlone(u)
    {
      var snapshot: Step, v: World, cycle: Step :|
        && snapshot.SnapshotStep? && Leads(w, snapshot, v, more, cfg)
        && cycle.CycleStep? && Leads(v, cycle, u, more, cfg);
      StillReachedInOrder(steps, w, totals, more, cfg);
      SnapshotKeepsQueue(w, snapshot, v, more, cfg);
      InOrderNext(steps, w, snapshot, v, more, cfg);
      InOrderNext(steps + [snapshot], v, cycle, u, more, cfg);
      ExclusiveMeansAlone(steps + [snapshot] + [cycle], u, more, cfg);
    }
  }

  /** The exact condition over runs: in any state of a run in order, the next cycle leaves every exclusive holder alone on
      every node, if and only if no exclusive task is queued behind a shared one that reserves nothing. */
  lemma {:induction false} AloneExactlyOverRuns(steps: seq<Step>, w: World, totals: Totals, cfg: Config)
    requires ReachedInOrder(steps, w, totals, cfg) && QueueInv(w.node.q) && CountsOk(w.node.q)
    ensures NextIsAlone(w, totals, cfg) <==> NothingBeforeWhole(w.node.q.queued.Values())
  {
    if NothingBeforeWhole(w.node.q.queued.Values()) {
      InOrderIsAlone(steps, w, totals, cfg);
    } else {
      InOrderIsReached(steps, w, totals, cfg);
      OutOfOrderShares(steps, w, totals, cfg);
    }
  }

  lemma {:induction false} InOrderIsReached(steps: seq<Step>, w: World, totals: Totals, cfg: Config)
    requires ReachedInOrder(steps, w, totals, cfg)
    ensures Reached(steps, w, totals, cfg)
    decreases |steps|
  {
    if steps != [] {
      var before: World :|
        && ReachedInOrder(Init(steps), before, totals, cfg) && Leads(before, Last(steps), w, totals, cfg)
        && CycleInOrder(before, Last(steps));
      InOrderIsReached(Init(steps), before, totals, cfg);
    }
  }
}
