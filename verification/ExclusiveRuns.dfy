/** When exclusive means alone: a GPU held exclusively has no other live task as long as no batch meets an exclusive
    task behind a shared one that reserves nothing. */
module ExclusiveRuns {
  import opened Basics
  import opened Models
  import opened OrderedDicts
  import opened QueueSpec
  import opened Attribution
  import opened AttributionFacts
  import opened Scheduling
  import opened BatchRefinement
  import opened Node
  import opened Runs
  import opened Safety
  import opened NodeSafety
  import opened RunSafety

  // ---------------------------------------------------------------------------
  // Who holds what
  // ---------------------------------------------------------------------------

  /** The task is a shared one that reserves nothing, and has GPUs. */
  predicate HoldsFreely(t: Task) {
    RequestOf(t) == SharedMb(0) && t.assignedGpus.GetOr([]) != []
  }

  predicate HoldsWhole(t: Task) {
    RequestOf(t) == WholeGpu && t.assignedGpus.GetOr([]) != []
  }

  /** `b` was not decided before `a` in the same batch, or one of them is harmless. */
  ghost predicate ApartAt(live: map<TaskId, Task>, admitted: map<TaskId, Admission>, a: TaskId, b: TaskId) {
    a in live && b in live && a in admitted && b in admitted
    && admitted[b].batch == admitted[a].batch && admitted[b].pos < admitted[a].pos && HoldsFreely(live[b]) ==>
      !HoldsWhole(live[a])
  }

  ghost predicate AllApart(live: map<TaskId, Task>, admitted: map<TaskId, Admission>) {
    forall a, b :: ApartAt(live, admitted, a, b)
  }

  ghost predicate EarlierAt(admitted: map<TaskId, Admission>, batch: nat, pos: nat, k: TaskId) {
    k in admitted ==> admitted[k].batch < batch || (admitted[k].batch == batch && admitted[k].pos < pos)
  }

  ghost predicate AllEarlier(admitted: map<TaskId, Admission>, batch: nat, pos: nat) {
    forall k :: EarlierAt(admitted, batch, pos, k)
  }

  /** The same GPUs for the same request. */
  ghost predicate SameHold(t: Task, u: Task) {
    t.assignedGpus == u.assignedGpus && RequestOf(t) == RequestOf(u)
  }

  ghost predicate SameHolds(next: map<TaskId, Task>, live: map<TaskId, Task>) {
    next.Keys <= live.Keys && forall k :: k in next ==> SameHold(next[k], live[k])
  }

  lemma {:induction false} SameHoldsApart(live: map<TaskId, Task>, next: map<TaskId, Task>,
        admitted: map<TaskId, Admission>)
    requires AllApart(live, admitted) && SameHolds(next, live)
    ensures AllApart(next, admitted)
  {
    forall a, b
      ensures ApartAt(next, admitted, a, b)
    {
      assert ApartAt(live, admitted, a, b);
    }
  }

  lemma {:induction false} WeakerHolds(next: map<TaskId, Task>, live: map<TaskId, Task>)
    requires Weaker(next, live)
    ensures SameHolds(next, live)
  {
  }

  // ---------------------------------------------------------------------------
  // The decisions of a batch
  // ---------------------------------------------------------------------------

  /** The decision gives GPUs to a shared task that reserves nothing. */
  ghost predicate GivesFreely(queued: map<TaskId, Task>, d: Decision) {
    d.taskId in queued && RequestOf(queued[d.taskId]) == SharedMb(0) && d.gpuIds != []
  }

  ghost predicate GivesWhole(queued: map<TaskId, Task>, d: Decision) {
    d.taskId in queued && RequestOf(queued[d.taskId]) == WholeGpu && d.gpuIds != []
  }

  ghost predicate InTurnAt(queued: map<TaskId, Task>, ds: seq<Decision>, x: int, y: int)
    requires 0 <= x < y < |ds|
  {
    ds[x].taskId != ds[y].taskId && (GivesFreely(queued, ds[x]) ==> !GivesWhole(queued, ds[y]))
  }

  ghost predicate InTurn(queued: map<TaskId, Task>, ds: seq<Decision>) {
    forall x, y :: 0 <= x < y < |ds| ==> InTurnAt(queued, ds, x, y)
  }

  ghost predicate NoneGivesWhole(queued: map<TaskId, Task>, ds: seq<Decision>) {
    forall y :: 0 <= y < |ds| ==> !GivesWhole(queued, ds[y])
  }

  lemma {:induction false} GivesTakes(t: Task, view: View, batch: Batch, queued: map<TaskId, Task>)
    requires t.id in queued && queued[t.id] == t
    ensures var e := Evaluate(t, view, batch); var d := Decision(t.id, e.gpuIds);
      e.canRun ==> (GivesWhole(queued, d) ==> TakesWhole(t)) && (GivesFreely(queued, d) ==> TakesNothing(t))
  {
    if t.requireGpuCount == 0 { PickNone(view, batch.pending, t); }
  }

  lemma {:induction false} NoneWholeGives(q: QueueState, tasks: seq<Task>, view: View, batch: Batch)
    requires StillQueued(q, tasks) && NoneWhole(tasks)
    ensures NoneGivesWhole(q.queued.vals, Decisions(Schedule(tasks, view, batch)))
    decreases |tasks|
  {
    if tasks != [] {
      var e := Evaluate(tasks[0], view, batch);
      assert tasks[0] in tasks;
      GivesTakes(tasks[0], view, batch, q.queued.vals);
      StillQueuedTailSame(q, tasks);
      NoneWholeGives(q, tasks[1..], view, After(tasks[0], e, batch));
      ScheduleStep(tasks, view, batch);
    }
  }

  /** Where no exclusive task stands behind a shared one that reserves nothing, no decision does either. */
  lemma {:induction false} DecisionsInTurn(q: QueueState, tasks: seq<Task>, view: View, batch: Batch)
    requires StillQueued(q, tasks) && NothingBeforeWhole(tasks)
    ensures InTurn(q.queued.vals, Decisions(Schedule(tasks, view, batch)))
    decreases |tasks|
  {
    if tasks != [] {
      var t, e := tasks[0], Evaluate(tasks[0], view, batch);
      var after := After(t, e, batch);
      var ds, rest := Decisions(Schedule(tasks, view, batch)), Decisions(Schedule(tasks[1..], view, after));
      StillQueuedTailSame(q, tasks);
      OrderTail(tasks);
      DecisionsInTurn(q, tasks[1..], view, after);
      GivesTakes(t, view, batch, q.queued.vals);
      ScheduleStep(tasks, view, batch);
      if TakesNothing(t) { NoneWholeGives(q, tasks[1..], view, after); }
      if e.canRun {
        DecisionsFromTasks(tasks[1..], view, after);
        InTurnCons(q, tasks, Decision(t.id, e.gpuIds), rest);
      }
    }
  }

  lemma {:induction false} InTurnCons(q: QueueState, tasks: seq<Task>, d: Decision, rest: seq<Decision>)
    requires tasks != [] && DistinctIds(tasks) && d.taskId == tasks[0].id
    requires InTurn(q.queued.vals, rest) && AllNamed(rest, tasks[1..])
    requires GivesFreely(q.queued.vals, d) ==> NoneGivesWhole(q.queued.vals, rest)
    ensures InTurn(q.queued.vals, [d] + rest)
  {
    var ds := [d] + rest;
    forall x, y | 0 <= x < y < |ds|
      ensures InTurnAt(q.queued.vals, ds, x, y)
    {
      if x > 0 {
        assert InTurnAt(q.queued.vals, rest, x - 1, y - 1);
      } else {
        assert Named(tasks[1..], rest[y - 1].taskId);
        var j :| 0 <= j < |tasks[1..]| && NamedAt(tasks[1..], j, rest[y - 1].taskId);
        assert tasks[1..][j] == tasks[j + 1];
      }
    }
  }

  // ---------------------------------------------------------------------------
  // Launching
  // ---------------------------------------------------------------------------

  /** The decisions still to be applied: in turn, about queued tasks, and none of them gives a whole GPU once a shared
      task that reserves nothing has been launched in this batch. */
  ghost predicate LaunchOk(q: QueueState, ds: seq<Decision>, queued: map<TaskId, Task>,
    admitted: map<TaskId, Admission>, batch: nat)
  {
    && InTurn(queued, ds)
    && (forall y :: 0 <= y < |ds| ==> StillThere(q, ds[y], queued))
    && (forall k :: FreelyInBatch(q.Live(), admitted, batch, k) ==> NoneGivesWhole(queued, ds))
  }

  ghost predicate StillThere(q: QueueState, d: Decision, queued: map<TaskId, Task>) {
    d.taskId in queued && d.taskId in q.queued.vals && q.queued.vals[d.taskId] == queued[d.taskId]
    && q.queued.vals[d.taskId].id == d.taskId
  }

  ghost predicate FreelyInBatch(live: map<TaskId, Task>, admitted: map<TaskId, Admission>, batch: nat, k: TaskId) {
    k in live && k in admitted && admitted[k].batch == batch && HoldsFreely(live[k])
  }

  lemma {:induction false} ReservedApart(q: QueueState, ds: seq<Decision>, queued: map<TaskId, Task>,
        admitted: map<TaskId, Admission>, batch: nat, pos: nat, deadline: Option<real>, clock: real)
    requires QueueInv(q) && ds != [] && LaunchOk(q, ds, queued, admitted, batch)
    requires AllApart(q.Live(), admitted) && AllEarlier(admitted, batch, pos)
    ensures StillThere(q, ds[0], queued)
    ensures var next := admitted[ds[0].taskId := Admission(batch, pos)];
      AllApart(Reserve(q, ds[0].taskId, ds[0].gpuIds, deadline, clock).Live(), next) && AllEarlier(next, batch, pos + 1)
  {
    var d := ds[0];
    assert StillThere(q, d, queued);
    var r, next := Reserve(q, d.taskId, d.gpuIds, deadline, clock), admitted[d.taskId := Admission(batch, pos)];
    ReserveLive(q, d.taskId, d.gpuIds, deadline, clock);
    forall a, b
      ensures ApartAt(r.Live(), next, a, b)
    {
      assert ApartAt(q.Live(), admitted, a, b);
      assert EarlierAt(admitted, batch, pos, a);
      assert FreelyInBatch(q.Live(), admitted, batch, b) ==> !GivesWhole(queued, d);
    }
    EarlierGrows(admitted, batch, pos, d.taskId);
  }

  lemma {:induction false} EarlierGrows(admitted: map<TaskId, Admission>, batch: nat, pos: nat, id: TaskId)
    requires AllEarlier(admitted, batch, pos)
    ensures AllEarlier(admitted[id := Admission(batch, pos)], batch, pos + 1)
  {
    var next, pos' := admitted[id := Admission(batch, pos)], pos + 1;
    forall k
      ensures EarlierAt(next, batch, pos', k)
    {
      assert EarlierAt(admitted, batch, pos, k);
    }
  }

  lemma {:induction false} ReservedLaunchOk(q: QueueState, ds: seq<Decision>, queued: map<TaskId, Task>,
        admitted: map<TaskId, Admission>, batch: nat, pos: nat, deadline: Option<real>, clock: real)
    requires QueueInv(q) && ds != [] && LaunchOk(q, ds, queued, admitted, batch) && StillThere(q, ds[0], queued)
    ensures LaunchOk(Reserve(q, ds[0].taskId, ds[0].gpuIds, deadline, clock), ds[1..], queued,
                     admitted[ds[0].taskId := Admission(batch, pos)], batch)
  {
    var d, rest := ds[0], ds[1..];
    var r, next := Reserve(q, d.taskId, d.gpuIds, deadline, clock), admitted[d.taskId := Admission(batch, pos)];
    ReserveLive(q, d.taskId, d.gpuIds, deadline, clock);
    forall x, y | 0 <= x < y < |rest|
      ensures InTurnAt(queued, rest, x, y)
    {
      assert InTurnAt(queued, ds, x + 1, y + 1);
    }
    forall y | 0 <= y < |rest|
      ensures StillThere(r, rest[y], queued)
    {
      assert StillThere(q, ds[y + 1], queued) && InTurnAt(queued, ds, 0, y + 1);
    }
    forall k | FreelyInBatch(r.Live(), next, batch, k)
      ensures NoneGivesWhole(queued, rest)
    {
      forall y | 0 <= y < |rest|
        ensures !GivesWhole(queued, rest[y])
      {
        assert InTurnAt(queued, ds, 0, y + 1);
        assert k != d.taskId ==> FreelyInBatch(q.Live(), admitted, batch, k);
      }
    }
  }

  lemma {:induction false} StartedLaunchOk(q: QueueState, ds: seq<Decision>, queued: map<TaskId, Task>,
        admitted: map<TaskId, Admission>, batch: nat, id: TaskId, pid: int, clock: real)
    requires QueueInv(q) && id in q.reserved.vals && LaunchOk(q, ds, queued, admitted, batch)
    requires AllApart(q.Live(), admitted)
    ensures LaunchOk(Start(q, id, pid, clock), ds, queued, admitted, batch)
    ensures AllApart(Start(q, id, pid, clock).Live(), admitted)
  {
    var r := Start(q, id, pid, clock);
    StartIds(q, id, pid, clock);
    StartWeaker(q, id, pid, clock);
    WeakerHolds(r.Live(), q.Live());
    SameHoldsApart(q.Live(), r.Live(), admitted);
    forall y | 0 <= y < |ds|
      ensures StillThere(r, ds[y], queued)
    {
      assert StillThere(q, ds[y], queued);
    }
    forall k | FreelyInBatch(r.Live(), admitted, batch, k)
      ensures NoneGivesWhole(queued, ds)
    {
      assert FreelyInBatch(q.Live(), admitted, batch, k);
    }
  }

  /** When a launch fails, the tasks of the decisions after it are not live. */
  lemma {:induction false} AbortedApart(q: QueueState, ds: seq<Decision>, queued: map<TaskId, Task>,
        admitted: map<TaskId, Admission>, batch: nat, pos: nat)
    requires QueueInv(q) && LaunchOk(q, ds, queued, admitted, batch) && AllApart(q.Live(), admitted)
    requires forall k :: k in q.Live() ==> k in admitted
    ensures AllApart(q.Live(), Admit(admitted, ds, batch, pos))
  {
    forall k | k in q.Live()
      ensures k in Admit(admitted, ds, batch, pos) && Admit(admitted, ds, batch, pos)[k] == admitted[k]
    {
      forall i | 0 <= i < |ds|
        ensures ds[i].taskId != k
      {
        assert StillThere(q, ds[i], queued);
      }
      AdmitOthers(admitted, ds, batch, pos, k);
    }
    forall a, b
      ensures ApartAt(q.Live(), Admit(admitted, ds, batch, pos), a, b)
    {
      assert ApartAt(q.Live(), admitted, a, b);
    }
  }

  lemma {:induction false} LaunchApart(q: QueueState, ds: seq<Decision>, queued: map<TaskId, Task>,
        admitted: map<TaskId, Admission>, batch: nat, pos: nat, pids: map<TaskId, int>, clock: real, cfg: Config)
    requires QueueInv(q) && LaunchOk(q, ds, queued, admitted, batch)
    requires AllApart(q.Live(), admitted) && AllEarlier(admitted, batch, pos)
    requires forall k :: k in q.Live() ==> k in admitted
    ensures AllApart(Launch(q, ds, pids, clock, cfg).0.Live(), Admit(admitted, ds, batch, pos))
    decreases |ds|
  {
    if ds != [] {
      var d, rest := ds[0], ds[1..];
      assert StillThere(q, d, queued);
      var t := q.queued.vals[d.taskId];
      var deadline, next := DeadlineFor(t, clock, cfg), admitted[d.taskId := Admission(batch, pos)];
      LaunchUnfolded(q, t, d.gpuIds, ds, pids, clock, cfg);
      ReservedApart(q, ds, queued, admitted, batch, pos, deadline, clock);
      ReservedLaunchOk(q, ds, queued, admitted, batch, pos, deadline, clock);
      ReserveLive(q, d.taskId, d.gpuIds, deadline, clock);
      var r := Reserve(q, d.taskId, d.gpuIds, deadline, clock);
      if t.launchMode.Foreground? {
        LaunchApart(r, rest, queued, next, batch, pos + 1, pids, clock, cfg);
      } else if t.id in pids {
        StartedLaunchOk(r, rest, queued, next, batch, t.id, pids[t.id], clock);
        StartWeaker(r, t.id, pids[t.id], clock);
        LaunchApart(Start(r, t.id, pids[t.id], clock), rest, queued, next, batch, pos + 1, pids, clock, cfg);
      } else {
        AbortedApart(r, rest, queued, next, batch, pos + 1);
      }
    }
  }

  lemma {:induction false} AdmitEarlier(admitted: map<TaskId, Admission>, ds: seq<Decision>, batch: nat, pos: nat)
    requires AllEarlier(admitted, batch, pos)
    ensures AllEarlier(Admit(admitted, ds, batch, pos), batch + 1, 0)
    decreases |ds|
  {
    var after, pos' := batch + 1, pos + 1;
    if ds == [] {
      forall k ensures EarlierAt(admitted, after, 0, k) { assert EarlierAt(admitted, batch, pos, k); }
    } else {
      var next := admitted[ds[0].taskId := Admission(batch, pos)];
      forall k ensures EarlierAt(next, batch, pos', k) { assert EarlierAt(admitted, batch, pos, k); }
      AdmitEarlier(next, ds[1..], batch, pos');
    }
  }

  // ---------------------------------------------------------------------------
  // Steps
  // ---------------------------------------------------------------------------

  ghost predicate Apartness(live: map<TaskId, Task>, admitted: map<TaskId, Admission>, batch: nat) {
    AllApart(live, admitted) && AllEarlier(admitted, batch, 0)
  }

  ghost predicate ApartInv(w: World) {
    Apartness(w.node.q.Live(), w.admitted, w.batch)
  }

  /** What a user who looks at the queue before a cycle can check: no exclusive task stands behind a shared one that
      reserves nothing. */
  ghost predicate CycleInOrder(w: World, step: Step)
    requires QueueInv(w.node.q)
  {
    step.CycleStep? ==> NothingBeforeWhole(w.node.q.queued.Values())
  }

  lemma {:induction false} TickHolds(q: QueueState)
    requires QueueInv(q)
    ensures SameHolds(Tick(q).0.Live(), q.Live())
  {
    TickQuiet(q);
    WeakerHolds(Tick(q).0.Live(), q.Live());
  }

  lemma {:induction false} ReclaimHolds(q: QueueState, sample: Sample, now: real)
    requires QueueInv(q)
    ensures SameHolds(ReclaimAll(q, sample, now).Live(), q.Live())
  {
    var r := ReclaimAll(q, sample, now);
    ReclaimAllLive(q, sample, now);
    forall k | k in r.Live()
      ensures SameHold(r.Live()[k], q.Live()[k])
    {
      assert UpdateOf(q.Live()[k], r.Live()[k], sample, now);
    }
  }

  lemma {:induction false} SettledApart(w: World, input: CycleInput)
    requires QueueInv(w.node.q) && w.node.inFlight.Some? && ApartInv(w)
    ensures AllApart(BeforeScheduling(w.node, input).Live(), w.admitted)
  {
    var q0 := w.node.q.(completions := w.node.q.completions + input.exits);
    assert q0.Live() == w.node.q.Live();
    var q1 := Tick(q0).0;
    TickHolds(q0);
    SameHoldsApart(q0.Live(), q1.Live(), w.admitted);
    ReclaimHolds(q1, w.node.inFlight.value.sample, input.now);
    SameHoldsApart(q1.Live(), BeforeScheduling(w.node, input).Live(), w.admitted);
  }

  lemma {:induction false} BatchLaunchOk(q: QueueState, view: View, admitted: map<TaskId, Admission>, batch: nat)
    requires QueueInv(q) && AllQueuedOk(q) && NothingBeforeWhole(q.queued.Values()) && AllEarlier(admitted, batch, 0)
    ensures LaunchOk(q, DecisionsOn(q, view), q.queued.vals, admitted, batch)
  {
    var tasks, ds := q.queued.Values(), DecisionsOn(q, view);
    QueuedAreStill(q);
    DecisionsInTurn(q, tasks, view, EMPTY_BATCH);
    DecisionsFromTasks(tasks, view, EMPTY_BATCH);
    forall y | 0 <= y < |ds|
      ensures StillThere(q, ds[y], q.queued.vals)
    {
      assert Named(tasks, ds[y].taskId);
      var j :| 0 <= j < |tasks| && NamedAt(tasks, j, ds[y].taskId);
    }
    forall k
      ensures !FreelyInBatch(q.Live(), admitted, batch, k)
    {
      assert EarlierAt(admitted, batch, 0, k);
    }
  }

  /** What a batch starts from. */
  ghost predicate BatchReady(q: QueueState, admitted: map<TaskId, Admission>, batch: nat) {
    && QueueInv(q) && AllQueuedOk(q) && NothingBeforeWhole(q.queued.Values())
    && Apartness(q.Live(), admitted, batch) && forall k :: k in q.Live() ==> k in admitted
  }

  lemma {:induction false} BatchApart(q: QueueState, view: View, admitted: map<TaskId, Admission>, batch: nat,
        pids: map<TaskId, int>, clock: real, cfg: Config)
    requires QueueInv(q)
    ensures var ds := DecisionsOn(q, view);
      BatchReady(q, admitted, batch) ==>
        Apartness(Launch(q, ds, pids, clock, cfg).0.Live(), Admit(admitted, ds, batch, 0), batch + 1)
  {
    if BatchReady(q, admitted, batch) {
      BatchLaunchOk(q, view, admitted, batch);
      LaunchApart(q, DecisionsOn(q, view), q.queued.vals, admitted, batch, 0, pids, clock, cfg);
      AdmitEarlier(admitted, DecisionsOn(q, view), batch, 0);
    }
  }

  lemma {:induction false} BeforeBatch(w: World, input: CycleInput, totals: Totals)
    requires Inv(w, totals) && ApartInv(w) && w.node.inFlight.Some? && CycleInOrder(w, CycleStep(input))
    ensures BatchReady(BeforeScheduling(w.node, input), w.admitted, w.batch)
  {
    var q := BeforeScheduling(w.node, input);
    BeforeSchedulingOk(w, input, totals);
    SettledApart(w, input);
    forall k | k in q.Live() ensures k in w.admitted { assert TaskOk(q.Live(), totals, w.admitted, k); }
  }

  lemma {:induction false} AfterCycle(w: World, input: CycleInput, cfg: Config)
    requires QueueInv(w.node.q) && w.node.inFlight.Some?
    ensures var w' := Next(w, CycleStep(input), cfg);
      var q, view := BeforeScheduling(w.node, input), ViewOf(w.node, input, cfg);
      && w'.node.q.Live() == Launch(q, DecisionsOn(q, view), input.pids, input.clock, cfg).0.Live()
      && w'.admitted == Admit(w.admitted, DecisionsOn(q, view), w.batch, 0)
      && w'.batch == w.batch + 1
  {
    MarkingKeepsPlaces(Launched(w.node, input, cfg).0);
  }

  /** A cycle is a batch on some queue in order. */
  lemma {:induction false} CycleAsBatch(w: World, input: CycleInput, totals: Totals, cfg: Config)
    returns (q: QueueState, view: View)
    requires Inv(w, totals) && ApartInv(w) && w.node.inFlight.Some? && CycleInOrder(w, CycleStep(input))
    ensures BatchReady(q, w.admitted, w.batch)
    ensures var w' := Next(w, CycleStep(input), cfg);
      && w'.node.q.Live() == Launch(q, DecisionsOn(q, view), input.pids, input.clock, cfg).0.Live()
      && w'.admitted == Admit(w.admitted, DecisionsOn(q, view), w.batch, 0)
      && w'.batch == w.batch + 1
  {
    q, view := BeforeScheduling(w.node, input), ViewOf(w.node, input, cfg);
    BeforeBatch(w, input, totals);
    AfterCycle(w, input, cfg);
  }

  lemma {:induction false} BatchKeepsApart(w: World, w': World, q: QueueState, view: View, input: CycleInput, cfg: Config)
    requires QueueInv(q) && QueueInv(w'.node.q) && BatchReady(q, w.admitted, w.batch)
    requires w'.node.q.Live() == Launch(q, DecisionsOn(q, view), input.pids, input.clock, cfg).0.Live()
    requires w'.admitted == Admit(w.admitted, DecisionsOn(q, view), w.batch, 0) && w'.batch == w.batch + 1
    ensures ApartInv(w')
  {
    BatchApart(q, view, w.admitted, w.batch, input.pids, input.clock, cfg);
  }

  lemma {:induction false} CycleKeepsApart(w: World, input: CycleInput, totals: Totals, cfg: Config)
    requires Inv(w, totals) && ApartInv(w) && w.node.inFlight.Some? && CycleInOrder(w, CycleStep(input))
    ensures ApartInv(Next(w, CycleStep(input), cfg))
  {
    var q, view := CycleAsBatch(w, input, totals, cfg);
    BatchKeepsApart(w, Next(w, CycleStep(input), cfg), q, view, input, cfg);
  }

  lemma {:induction false} StepHolds(s: NodeState, step: Step, cfg: Config)
    requires QueueInv(s.q) && !step.CycleStep? && (step.SubmitStep? ==> step.id !in s.q.Ids())
    ensures SameHolds(Do(s, step, cfg).q.Live(), s.q.Live())
  {
    if step.SubmitStep? {
      if SubmitErrorOf(s, step.spec).None? { SubmitPlaces(s.q, Normalized(step.spec), step.id, step.now); }
    } else {
      StepQuiet(s, step, cfg);
      WeakerHolds(Do(s, step, cfg).q.Live(), s.q.Live());
    }
  }

  lemma {:induction false} NextKeepsApart(w: World, step: Step, totals: Totals, cfg: Config)
    requires Inv(w, totals) && ApartInv(w) && Enabled(w, step, totals) && CycleInOrder(w, step)
    requires step.SubmitStep? ==> step.id !in w.node.q.Ids()
    ensures ApartInv(Next(w, step, cfg))
  {
    if step.CycleStep? {
      CycleKeepsApart(w, step.input, totals, cfg);
    } else {
      StepHolds(w.node, step, cfg);
      SameHoldsApart(w.node.q.Live(), Do(w.node, step, cfg).q.Live(), w.admitted);
    }
  }

  // ---------------------------------------------------------------------------
  // Whole runs
  // ---------------------------------------------------------------------------

  /** `Reached`, with every cycle in order. */
  ghost predicate ReachedInOrder(steps: seq<Step>, w: World, totals: Totals, cfg: Config)
    decreases |steps|
  {
    if steps == [] then w == START
    else exists before: World ::
      && ReachedInOrder(Init(steps), before, totals, cfg) && Leads(before, Last(steps), w, totals, cfg)
      && CycleInOrder(before, Last(steps))
  }

  lemma {:induction false} ReachedInOrderInv(steps: seq<Step>, w: World, totals: Totals, cfg: Config)
    requires ReachedInOrder(steps, w, totals, cfg)
    ensures Inv(w, totals) && ApartInv(w)
    decreases |steps|
  {
    if steps == [] {
      StartInv(totals);
    } else {
      var before: World :|
        && ReachedInOrder(Init(steps), before, totals, cfg) && Leads(before, Last(steps), w, totals, cfg)
        && CycleInOrder(before, Last(steps));
      ReachedInOrderInv(Init(steps), before, totals, cfg);
      NextKeepsInv(before, Last(steps), totals, cfg);
      NextKeepsApart(before, Last(steps), totals, cfg);
    }
  }

  /** GPU `g` has an exclusive holder `b` and another live task `a`. */
  ghost predicate Shares(w: World, a: TaskId, b: TaskId, g: int) {
    var live := w.node.q.Live();
    a in live && b in live && a != b && AssignedTo(live[a], g) && AssignedTo(live[b], g) && ExclusiveActive(live[b], g)
  }

  /** A GPU held exclusively has no other live task at all. */
  ghost predicate AllAlone(w: World) {
    forall a, b, g :: !Shares(w, a, b, g)
  }

  /** ALONE. As long as no cycle finds an exclusive task queued behind a shared one that reserves nothing, a GPU held
      exclusively has no other live task at all. */
  lemma {:induction false} ExclusiveMeansAlone(steps: seq<Step>, w: World, totals: Totals, cfg: Config)
    requires ReachedInOrder(steps, w, totals, cfg)
    ensures AllAlone(w)
  {
    ReachedInOrderInv(steps, w, totals, cfg);
    forall a, b, g
      ensures !Shares(w, a, b, g)
    {
      NoneShares(w, totals, a, b, g);
    }
  }

  lemma {:induction false} NoneShares(w: World, totals: Totals, a: TaskId, b: TaskId, g: int)
    requires Inv(w, totals) && ApartInv(w)
    ensures !Shares(w, a, b, g)
  {
    var live := w.node.q.Live();
    assert Compatible(live, w.admitted, b, a, g);
    assert TaskOk(live, totals, w.admitted, a) && TaskOk(live, totals, w.admitted, b);
    assert ApartAt(live, w.admitted, b, a);
  }

  // ---------------------------------------------------------------------------
  // Positive reservations
  // ---------------------------------------------------------------------------

  predicate PositiveSubmit(step: Step) {
    step.SubmitStep? && step.spec.vramMode.Shared? ==> step.spec.requestedVramMb.GetOr(step.spec.requireVramMb) > 0
  }

  ghost predicate QueuedPositive(q: QueueState) {
    forall k :: k in q.queued.vals ==> RequestOf(q.queued.vals[k]) != SharedMb(0)
  }

  lemma {:induction false} LaunchedPositive(s: NodeState, input: CycleInput, cfg: Config)
    requires QueueInv(s.q) && s.inFlight.Some? && QueuedPositive(s.q)
    ensures QueuedPositive(Launched(s, input, cfg).0)
  {
    var q0 := s.q.(completions := s.q.completions + input.exits);
    TickLive(q0);
    var q := BeforeScheduling(s, input);
    assert q.queued == s.q.queued;
    LaunchIds(q, DecisionsOf(s, input, cfg), input.pids, input.clock, cfg);
  }

  lemma {:induction false} CycleKeepsPositive(s: NodeState, input: CycleInput, cfg: Config)
    requires QueueInv(s.q) && QueuedPositive(s.q)
    ensures QueuedPositive(Do(s, CycleStep(input), cfg).q)
  {
    if s.inFlight.Some? {
      LaunchedPositive(s, input, cfg);
      MarkingKeepsPlaces(Launched(s, input, cfg).0);
    }
  }

  lemma {:induction false} SubmitKeepsPositive(s: NodeState, spec: TaskSpec, id: TaskId, now: real, cfg: Config)
    requires QueueInv(s.q) && QueuedPositive(s.q) && PositiveSubmit(SubmitStep(spec, id, now)) && id !in s.q.Ids()
    ensures QueuedPositive(Do(s, SubmitStep(spec, id, now), cfg).q)
  {
    if SubmitErrorOf(s, spec).None? {
      SubmitPlaces(s.q, Normalized(spec), id, now);
    }
  }

  lemma {:induction false} StepKeepsPositive(s: NodeState, step: Step, cfg: Config)
    requires QueueInv(s.q) && QueuedPositive(s.q) && PositiveSubmit(step)
    requires step.SubmitStep? ==> step.id !in s.q.Ids()
    ensures QueuedPositive(Do(s, step, cfg).q)
  {
    match step {
      case SubmitStep(spec, id, now) => SubmitKeepsPositive(s, spec, id, now, cfg);
      case CycleStep(input) => CycleKeepsPositive(s, input, cfg);
      case _ => StepQuiet(s, step, cfg);
    }
  }

  lemma {:induction false} PositiveInOrder(q: QueueState)
    requires QueueInv(q) && QueuedPositive(q)
    ensures NothingBeforeWhole(q.queued.Values())
  {
  }

  lemma {:induction false} LedPositive(before: World, step: Step, w: World, totals: Totals, cfg: Config)
    requires Leads(before, step, w, totals, cfg) && QueuedPositive(before.node.q) && PositiveSubmit(step)
    ensures CycleInOrder(before, step) && QueueInv(w.node.q) && QueuedPositive(w.node.q)
  {
    PositiveInOrder(before.node.q);
    StepKeepsPositive(before.node, step, cfg);
  }

  /** In particular, runs that reserve a positive amount with every shared submission are in order throughout. */
  lemma {:induction false} PositiveRunsAreInOrder(steps: seq<Step>, w: World, totals: Totals, cfg: Config)
    requires Reached(steps, w, totals, cfg) && forall i :: 0 <= i < |steps| ==> PositiveSubmit(steps[i])
    ensures ReachedInOrder(steps, w, totals, cfg) && QueueInv(w.node.q) && QueuedPositive(w.node.q)
    decreases |steps|
  {
    if steps == [] {
      EmptyQueueInv();
    } else {
      var before: World :| Reached(Init(steps), before, totals, cfg) && Leads(before, Last(steps), w, totals, cfg);
      PositiveRunsAreInOrder(Init(steps), before, totals, cfg);
      LedPositive(before, Last(steps), w, totals, cfg);
    }
  }
}
