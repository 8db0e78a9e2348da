/** Every record tells what happened to its task: over any run, each field of each record is a function of the steps that
    concerned the task. */
module Journals {
  import opened Basics
  import opened Models
  import opened OrderedDicts
  import opened QueueSpec
  import opened Node
  import opened Runs
  import opened Safety
  import opened RunSafety
  import opened Launches
  import NodeSafety
  import Reclaim
  import Scheduling
  import SubmitMeaning
  import TickMeaning

  // ---------------------------------------------------------------------------
  // What happened to one task
  // ---------------------------------------------------------------------------

  datatype Reservation = Reservation(gpus: seq<int>, at: real)

  datatype Beginning = Beginning(pid: int, at: real)

  datatype Ending = Ending(status: TaskStatus, reason: EndReason, at: real, exitCode: Option<int>)

  /** How the task was submitted, the priority it was given last, its reservation, its start, the cycles that observed it
      while it ran, and its end. */
  datatype Journal = Journal(
    spec: TaskSpec,
    submittedAt: real,
    priority: int,
    reserved: Option<Reservation>,
    started: Option<Beginning>,
    rounds: seq<Reclaim.Round>,
    ended: Option<Ending>)

  /** The record of the task when it was submitted, reserved or started, whichever came last. */
  function FirstRecord(k: TaskId, j: Journal, cfg: Config): Task {
    var whole := j.spec.vramMode.ExclusiveAuto?;
    var asked := if whole then 0 else SubmitMeaning.AskedMb(j.spec);
    Task(
      k,
      if j.started.Some? then Running else if j.reserved.Some? then Reserved else Queued,
      j.spec.launchMode,
      asked,
      j.spec.requireGpuCount,
      if whole then None else Some(asked),
      j.spec.vramMode,
      j.priority,
      j.submittedAt,
      if j.reserved.Some? then Some(j.reserved.value.at) else None,
      if j.started.Some? then Some(j.started.value.at) else None,
      None,
      if j.started.Some? then Some(j.started.value.pid) else None,
      if j.reserved.Some? then Some(j.reserved.value.gpus) else None,
      if j.reserved.Some? then Some(asked) else None,
      j.spec.autoObserveWindowSec,
      None,
      None,
      false,
      None,
      None,
      false,
      if j.reserved.Some? && j.spec.launchMode.Foreground? then Some(j.reserved.value.at + cfg.attachTimeout) else None)
  }

  /** That record after the rounds that observed it, and ended if the task has ended. */
  function RecordFrom(k: TaskId, j: Journal, cfg: Config): Task {
    var seen := Reclaim.UpdatedOver(FirstRecord(k, j, cfg), j.rounds);
    match j.ended
    case None => seen
    case Some(e) =>
      seen.(status := e.status, endReason := Some(e.reason), finishedAt := Some(e.at), exitCode := e.exitCode)
  }

  /** The record apart from the mark that a report carried it. */
  function Unmarked(t: Task): Task {
    t.(reportedSinceTerminal := false)
  }

  predicate QueuedStory(j: Journal) {
    j.reserved.None? && j.started.None? && j.rounds == [] && j.ended.None?
  }

  predicate ReservedStory(j: Journal) {
    j.reserved.Some? && j.started.None? && j.rounds == [] && j.ended.None?
  }

  predicate RunningStory(j: Journal) {
    j.reserved.Some? && j.started.Some? && j.ended.None?
  }

  ghost predicate Recorded(js: map<TaskId, Journal>, k: TaskId, t: Task, cfg: Config) {
    k in js && Unmarked(t) == RecordFrom(k, js[k], cfg)
  }

  /** The place of the task and its record are as the journal tells. */
  ghost predicate TellsAt(q: QueueState, js: map<TaskId, Journal>, cfg: Config, k: TaskId) {
    && (k in q.queued.vals ==> Recorded(js, k, q.queued.vals[k], cfg) && QueuedStory(js[k]))
    && (k in q.reserved.vals ==> Recorded(js, k, q.reserved.vals[k], cfg) && ReservedStory(js[k]))
    && (k in q.running.vals ==> Recorded(js, k, q.running.vals[k], cfg) && RunningStory(js[k]))
    && (k in q.terminal.vals ==> Recorded(js, k, q.terminal.vals[k], cfg) && js[k].ended.Some?)
  }

  ghost predicate Tells(q: QueueState, js: map<TaskId, Journal>, cfg: Config) {
    forall k :: TellsAt(q, js, cfg, k)
  }

  // ---------------------------------------------------------------------------
  // What a step adds
  // ---------------------------------------------------------------------------

  /** How the coming tick ends the task, if it does: a running one by its first completion, otherwise a live one by its first
      observation. */
  function EndIn(q: QueueState, k: TaskId): Option<Ending> {
    var c, o := TickMeaning.FirstCompletion(q.completions, k), TickMeaning.FirstRuntime(q.runtimes, k);
    if k in q.running.vals && c.Some? then
      Some(Ending(if c.value.exitCode == 0 then Succeeded else Failed,
                  if c.value.exitCode == 0 then ExitZero else ExitNonzero, c.value.timestamp, Some(c.value.exitCode)))
    else if (k in q.running.vals || k in q.reserved.vals) && o.Some? then
      Some(Ending(Abnormal, o.value.reason, o.value.timestamp, None))
    else None
  }

  function AfterTick(js: map<TaskId, Journal>, q: QueueState): map<TaskId, Journal> {
    map k | k in js :: if EndIn(q, k).Some? then js[k].(ended := EndIn(q, k)) else js[k]
  }

  function AfterReclaim(js: map<TaskId, Journal>, q: QueueState, perGpu: Sample, now: real): map<TaskId, Journal> {
    map k | k in js :: if k in q.running.vals then js[k].(rounds := js[k].rounds + [Reclaim.Round(perGpu, now)]) else js[k]
  }

  function PidOf(pids: map<TaskId, int>, k: TaskId): int {
    if k in pids then pids[k] else 0
  }

  /** `q` and `r` are the queue before and after the launches. */
  function AfterLaunch(js: map<TaskId, Journal>, q: QueueState, r: QueueState, ds: seq<Scheduling.Decision>,
        pids: map<TaskId, int>, clock: real): map<TaskId, Journal>
  {
    map k | k in js ::
      if k in q.queued.vals && k !in r.queued.vals then
        js[k].(reserved := Some(Reservation(FirstGiven(ds, k).GetOr([]), clock)),
               started := if k in r.running.vals then Some(Beginning(PidOf(pids, k), clock)) else None)
      else js[k]
  }

  function AfterCycle(js: map<TaskId, Journal>, s: NodeState, input: CycleInput, cfg: Config): map<TaskId, Journal>
    requires QueueInv(s.q) && s.inFlight.Some?
  {
    var q0 := s.q.(completions := s.q.completions + input.exits);
    var ticked := AfterTick(js, q0);
    var observed := AfterReclaim(ticked, Tick(q0).0, s.inFlight.value.sample, input.now);
    AfterLaunch(observed, BeforeScheduling(s, input), Launched(s, input, cfg).0, DecisionsOf(s, input, cfg), input.pids,
                input.clock)
  }

  function Told(js: map<TaskId, Journal>, s: NodeState, step: Step, cfg: Config): map<TaskId, Journal>
    requires QueueInv(s.q) && (step.SubmitStep? ==> step.id !in s.q.Ids())
  {
    match step
    case SubmitStep(spec, id, now) =>
      if SubmitErrorOf(s, spec).None? then js[id := Journal(spec, now, spec.priority, None, None, [], None)] else js
    case PriorityStep(id, priority) =>
      if id in s.q.queued.vals && id in js then js[id := js[id].(priority := priority)] else js
    case CancelStep(id, now) =>
      if id in s.q.Ids() && id in js then js[id := js[id].(ended := Some(Ending(Cancelled, CancelledByUser, now, None)))]
      else js
    case ConfirmStep(id, pid, now) =>
      if id in s.q.reserved.vals && id in js then js[id := js[id].(started := Some(Beginning(pid, now)))] else js
    case FinishStep(_, _, _) => if AtTick(s, step).Some? then AfterTick(js, AtTick(s, step).value) else js
    case FailStep(_, _) => if AtTick(s, step).Some? then AfterTick(js, AtTick(s, step).value) else js
    case MonitorStep(_) => js
    case SnapshotStep(_, _, _) => js
    case CycleStep(input) => if s.inFlight.Some? then AfterCycle(js, s, input, cfg) else js
  }

  // ---------------------------------------------------------------------------
  // Each step keeps the journals true
  // ---------------------------------------------------------------------------

  lemma {:induction false} SubmitTells(s: NodeState, spec: TaskSpec, id: TaskId, now: real, js: map<TaskId, Journal>,
        cfg: Config)
    requires QueueInv(s.q) && id !in s.q.Ids() && Tells(s.q, js, cfg)
    ensures Tells(Do(s, SubmitStep(spec, id, now), cfg).q, Told(js, s, SubmitStep(spec, id, now), cfg), cfg)
  {
    if SubmitErrorOf(s, spec).None? {
      NodeSafety.SubmitPlaces(s.q, Normalized(spec), id, now);
      var j := Journal(spec, now, spec.priority, None, None, [], None);
      var r, js' := Submit(s.q, Normalized(spec), id, now), js[id := j];
      assert NewTask(Normalized(spec), id, now) == RecordFrom(id, j, cfg);
      forall k
        ensures TellsAt(r, js', cfg, k)
      {
        assert TellsAt(s.q, js, cfg, k);
      }
    }
  }

  lemma {:induction false} PriorityTells(q: QueueState, id: TaskId, priority: int, js: map<TaskId, Journal>, cfg: Config)
    requires QueueInv(q) && Tells(q, js, cfg) && id in q.queued.vals
    ensures id in js && Tells(SetPriority(q, id, priority), js[id := js[id].(priority := priority)], cfg)
  {
    assert TellsAt(q, js, cfg, id);
    var r, js' := SetPriority(q, id, priority), js[id := js[id].(priority := priority)];
    assert r.queued.vals == q.queued.vals[id := q.queued.vals[id].(priority := priority)];
    forall k
      ensures TellsAt(r, js', cfg, k)
    {
      assert TellsAt(q, js, cfg, k);
    }
  }

  lemma {:induction false} EndedRecord(k: TaskId, j: Journal, e: Ending, t: Task, cfg: Config)
    requires Unmarked(t) == RecordFrom(k, j, cfg)
    ensures Unmarked(AsEnded(t, e.status, e.reason, e.at, e.exitCode)) == RecordFrom(k, j.(ended := Some(e)), cfg)
  {
  }

  lemma {:induction false} TellsGet(q: QueueState, js: map<TaskId, Journal>, cfg: Config, k: TaskId)
    requires QueueInv(q) && Tells(q, js, cfg) && k in q.Ids()
    ensures q.Get(k).Some? && q.Get(k).value.id == k && Recorded(js, k, q.Get(k).value, cfg)
  {
    assert TellsAt(q, js, cfg, k);
  }

  lemma {:induction false} CancelTells(q: QueueState, id: TaskId, now: real, js: map<TaskId, Journal>, cfg: Config)
    requires QueueInv(q) && Tells(q, js, cfg) && id in q.Ids()
    ensures id in js
    ensures Tells(Cancel(q, id, now), js[id := js[id].(ended := Some(Ending(Cancelled, CancelledByUser, now, None)))], cfg)
  {
    TellsGet(q, js, cfg, id);
    var t, e := q.Get(id).value, Ending(Cancelled, CancelledByUser, now, None);
    var u := AsEnded(t, Cancelled, CancelledByUser, now, None);
    var r, js' := Cancel(q, id, now), js[id := js[id].(ended := Some(e))];
    EndedRecord(id, js[id], e, t, cfg);
    NodeSafety.FinishPlaces(q, u);
    assert r.terminal.vals == q.terminal.vals[id := u];
    forall k
      ensures TellsAt(r, js', cfg, k)
    {
      assert TellsAt(q, js, cfg, k);
    }
  }

  lemma {:induction false} StartedRecord(k: TaskId, j: Journal, b: Beginning, t: Task, cfg: Config)
    requires ReservedStory(j) && Unmarked(t) == RecordFrom(k, j, cfg)
    ensures Unmarked(AsStarted(t, b.pid, b.at)) == RecordFrom(k, j.(started := Some(b)), cfg)
  {
  }

  lemma {:induction false} ConfirmTells(q: QueueState, id: TaskId, pid: int, now: real, js: map<TaskId, Journal>,
        cfg: Config)
    requires QueueInv(q) && Tells(q, js, cfg) && id in q.reserved.vals
    ensures id in js && Tells(Start(q, id, pid, now), js[id := js[id].(started := Some(Beginning(pid, now)))], cfg)
  {
    assert TellsAt(q, js, cfg, id);
    var r, js' := Start(q, id, pid, now), js[id := js[id].(started := Some(Beginning(pid, now)))];
    StartedRecord(id, js[id], Beginning(pid, now), q.reserved.vals[id], cfg);
    forall k
      ensures TellsAt(r, js', cfg, k)
    {
      assert TellsAt(q, js, cfg, k);
    }
  }

  // ---------------------------------------------------------------------------
  // The tick
  // ---------------------------------------------------------------------------

  lemma {:induction false} VerdictMeans(q: QueueState, k: TaskId)
    requires QueueInv(q)
    ensures TickMeaning.Verdict(q, k).Some? <==> EndIn(q, k).Some?
    ensures EndIn(q, k).Some? ==> k in q.Live() && var e := EndIn(q, k).value;
      TickMeaning.Verdict(q, k).value == AsEnded(q.Live()[k], e.status, e.reason, e.at, e.exitCode)
  {
  }

  lemma {:induction false} LiveTells(q: QueueState, js: map<TaskId, Journal>, cfg: Config, k: TaskId)
    requires QueueInv(q) && TellsAt(q, js, cfg, k) && k in q.Live()
    ensures Recorded(js, k, q.Live()[k], cfg)
  {
  }

  lemma {:induction false} TickTellsAt(q: QueueState, js: map<TaskId, Journal>, cfg: Config, k: TaskId)
    requires QueueInv(q) && TellsAt(q, js, cfg, k)
    ensures TellsAt(Tick(q).0, AfterTick(js, q), cfg, k)
  {
    var r := Tick(q).0;
    TickMeaning.TickCorrect(q);
    VerdictMeans(q, k);
    assert k in Tick(q).1 <==> k in TickMeaning.Elems(Tick(q).1);
    if EndIn(q, k).Some? {
      LiveTells(q, js, cfg, k);
      EndedRecord(k, js[k], EndIn(q, k).value, q.Live()[k], cfg);
    }
  }

  lemma {:induction false} TickTells(q: QueueState, js: map<TaskId, Journal>, cfg: Config)
    requires QueueInv(q) && Tells(q, js, cfg)
    ensures Tells(Tick(q).0, AfterTick(js, q), cfg)
  {
    var r, js' := Tick(q).0, AfterTick(js, q);
    forall k
      ensures TellsAt(r, js', cfg, k)
    {
      assert TellsAt(q, js, cfg, k);
      TickTellsAt(q, js, cfg, k);
    }
  }

  // ---------------------------------------------------------------------------
  // The reclaim and the launches
  // ---------------------------------------------------------------------------

  lemma {:induction false} ObservedRecord(k: TaskId, j: Journal, t: Task, perGpu: Sample, now: real, cfg: Config)
    requires j.ended.None? && Unmarked(t) == RecordFrom(k, j, cfg)
    ensures Unmarked(Reclaim.Updated(t, perGpu, now))
         == RecordFrom(k, j.(rounds := j.rounds + [Reclaim.Round(perGpu, now)]), cfg)
  {
    InitSnoc(j.rounds, Reclaim.Round(perGpu, now));
    assert Unmarked(Reclaim.Updated(t, perGpu, now)) == Reclaim.Updated(Unmarked(t), perGpu, now);
  }

  lemma {:induction false} ReclaimTells(q: QueueState, perGpu: Sample, now: real, js: map<TaskId, Journal>, cfg: Config)
    requires QueueInv(q) && Tells(q, js, cfg)
    ensures Tells(ReclaimAll(q, perGpu, now), AfterReclaim(js, q, perGpu, now), cfg)
  {
    var r, js' := ReclaimAll(q, perGpu, now), AfterReclaim(js, q, perGpu, now);
    forall k
      ensures TellsAt(r, js', cfg, k)
    {
      assert TellsAt(q, js, cfg, k);
      if k in q.running.vals { ObservedRecord(k, js[k], q.running.vals[k], perGpu, now, cfg); }
    }
  }

  lemma {:induction false} LaunchedStory(k: TaskId, j: Journal, t: Task, gpus: seq<int>, pids: map<TaskId, int>,
        clock: real, cfg: Config)
    requires QueuedStory(j) && t.id == k && Unmarked(t) == RecordFrom(k, j, cfg)
    ensures var u := LaunchedTask(t, gpus, pids, clock, cfg);
      var j' := j.(reserved := Some(Reservation(gpus, clock)),
                   started := if u.status.Running? then Some(Beginning(PidOf(pids, k), clock)) else None);
      && Unmarked(u) == RecordFrom(k, j', cfg)
      && (u.status.Running? ==> RunningStory(j')) && (!u.status.Running? ==> u.status.Reserved? && ReservedStory(j'))
  {
  }

  /** Which place a live record stands in. */
  lemma {:induction false} PlaceOfLive(r: QueueState, k: TaskId)
    requires QueueInv(r) && k in r.Live()
    ensures k !in r.queued.vals && k !in r.terminal.vals
    ensures k in r.running.vals <==> r.Live()[k].status.Running?
    ensures k in r.reserved.vals <==> r.Live()[k].status.Reserved?
    ensures k in r.running.vals ==> r.running.vals[k] == r.Live()[k]
    ensures k in r.reserved.vals ==> r.reserved.vals[k] == r.Live()[k]
  {
  }

  lemma {:induction false} StillLiveTells(q: QueueState, r: QueueState, js: map<TaskId, Journal>, js': map<TaskId, Journal>,
        cfg: Config, k: TaskId)
    requires QueueInv(q) && QueueInv(r) && TellsAt(q, js, cfg, k)
    requires k in q.Live() && k in r.Live() && r.Live()[k] == q.Live()[k] && k in js && k in js' && js'[k] == js[k]
    ensures TellsAt(r, js', cfg, k)
  {
    PlaceOfLive(q, k);
    PlaceOfLive(r, k);
  }

  lemma {:induction false} NewLiveTells(q: QueueState, r: QueueState, js: map<TaskId, Journal>, js': map<TaskId, Journal>,
        gpus: seq<int>, pids: map<TaskId, int>, clock: real, cfg: Config, k: TaskId)
    requires QueueInv(q) && QueueInv(r) && TellsAt(q, js, cfg, k) && k in q.queued.vals && k in r.Live()
    requires r.Live()[k] == LaunchedTask(q.queued.vals[k], gpus, pids, clock, cfg)
    requires k in js && k in js' && js'[k] == js[k].(reserved := Some(Reservation(gpus, clock)),
      started := if k in r.running.vals then Some(Beginning(PidOf(pids, k), clock)) else None)
    ensures TellsAt(r, js', cfg, k)
  {
    PlaceOfLive(r, k);
    LaunchedStory(k, js[k], q.queued.vals[k], gpus, pids, clock, cfg);
  }

  lemma {:induction false} ElsewhereTells(q: QueueState, r: QueueState, js: map<TaskId, Journal>, js': map<TaskId, Journal>,
        cfg: Config, k: TaskId)
    requires QueueInv(q) && QueueInv(r) && TellsAt(q, js, cfg, k) && k !in r.Live() && r.terminal == q.terminal
    requires k in r.queued.vals ==> k in q.queued.vals && r.queued.vals[k] == q.queued.vals[k]
    requires k in r.Ids() ==> k in js && k in js' && js'[k] == js[k]
    ensures TellsAt(r, js', cfg, k)
  {
  }

  lemma {:induction false} LaunchTellsAt(q: QueueState, r: QueueState, ds: seq<Scheduling.Decision>,
        pids: map<TaskId, int>, clock: real, js: map<TaskId, Journal>, cfg: Config, k: TaskId)
    requires QueueInv(q) && QueueInv(r) && TellsAt(q, js, cfg, k) && r == Launch(q, ds, pids, clock, cfg).0
    ensures TellsAt(r, AfterLaunch(js, q, r, ds, pids, clock), cfg, k)
  {
    var js' := AfterLaunch(js, q, r, ds, pids, clock);
    LaunchIds(q, ds, pids, clock, cfg);
    if k !in r.Live() {
      ElsewhereTells(q, r, js, js', cfg, k);
    } else if k in q.Live() {
      LaunchKeepsLive(q, ds, pids, clock, cfg, k);
      LiveTells(q, js, cfg, k);
      PlaceOfLive(q, k);
      StillLiveTells(q, r, js, js', cfg, k);
    } else {
      LaunchedRecord(q, ds, pids, clock, cfg, k, r.Live());
      PlaceOfLive(r, k);
      NewLiveTells(q, r, js, js', FirstGiven(ds, k).value, pids, clock, cfg, k);
    }
  }

  lemma {:induction false} LaunchTells(q: QueueState, ds: seq<Scheduling.Decision>, pids: map<TaskId, int>, clock: real,
        js: map<TaskId, Journal>, cfg: Config)
    requires QueueInv(q) && Tells(q, js, cfg)
    ensures var r := Launch(q, ds, pids, clock, cfg).0; Tells(r, AfterLaunch(js, q, r, ds, pids, clock), cfg)
  {
    var r := Launch(q, ds, pids, clock, cfg).0;
    var js' := AfterLaunch(js, q, r, ds, pids, clock);
    forall k
      ensures TellsAt(r, js', cfg, k)
    {
      assert TellsAt(q, js, cfg, k);
      LaunchTellsAt(q, r, ds, pids, clock, js, cfg, k);
    }
  }

  lemma {:induction false} MarkTells(q: QueueState, js: map<TaskId, Journal>, cfg: Config)
    requires QueueInv(q) && Tells(q, js, cfg)
    ensures Tells(MarkReported(q), js, cfg)
  {
    var r := MarkReported(q);
    forall k
      ensures TellsAt(r, js, cfg, k)
    {
      assert TellsAt(q, js, cfg, k);
    }
  }

  lemma {:induction false} SameStory(q: QueueState, r: QueueState, js: map<TaskId, Journal>, cfg: Config)
    requires Tells(q, js, cfg)
    requires r.queued == q.queued && r.reserved == q.reserved && r.running == q.running && r.terminal == q.terminal
    ensures Tells(r, js, cfg)
  {
    forall k
      ensures TellsAt(r, js, cfg, k)
    {
      assert TellsAt(q, js, cfg, k);
    }
  }

  // ---------------------------------------------------------------------------
  // Steps and runs
  // ---------------------------------------------------------------------------

  lemma {:induction false} LaunchedTells(s: NodeState, input: CycleInput, js: map<TaskId, Journal>, cfg: Config)
    requires QueueInv(s.q) && s.inFlight.Some? && Tells(s.q, js, cfg)
    ensures Tells(Launched(s, input, cfg).0, AfterCycle(js, s, input, cfg), cfg)
  {
    var q0 := s.q.(completions := s.q.completions + input.exits);
    SameStory(s.q, q0, js, cfg);
    TickTells(q0, js, cfg);
    var ticked, sample := AfterTick(js, q0), s.inFlight.value.sample;
    ReclaimTells(Tick(q0).0, sample, input.now, ticked, cfg);
    var observed := AfterReclaim(ticked, Tick(q0).0, sample, input.now);
    LaunchTells(BeforeScheduling(s, input), DecisionsOf(s, input, cfg), input.pids, input.clock, observed, cfg);
  }

  lemma {:induction false} CycleTells(s: NodeState, input: CycleInput, js: map<TaskId, Journal>, cfg: Config)
    requires QueueInv(s.q) && s.inFlight.Some? && Tells(s.q, js, cfg)
    ensures Tells(Cycle(s, input, cfg).q, AfterCycle(js, s, input, cfg), cfg)
  {
    LaunchedTells(s, input, js, cfg);
    MarkTells(Launched(s, input, cfg).0, AfterCycle(js, s, input, cfg), cfg);
  }

  lemma {:induction false} TickStepTells(s: NodeState, step: Step, js: map<TaskId, Journal>, cfg: Config)
    requires QueueInv(s.q) && Tells(s.q, js, cfg) && (step.FinishStep? || step.FailStep?)
    ensures Tells(Do(s, step, cfg).q, Told(js, s, step, cfg), cfg)
  {
    var at := AtTick(s, step);
    if at.Some? {
      SameStory(s.q, at.value, js, cfg);
      TickTells(at.value, js, cfg);
    }
  }

  lemma {:induction false} StepTells(s: NodeState, step: Step, js: map<TaskId, Journal>, cfg: Config)
    requires QueueInv(s.q) && Tells(s.q, js, cfg) && (step.SubmitStep? ==> step.id !in s.q.Ids())
    ensures Tells(Do(s, step, cfg).q, Told(js, s, step, cfg), cfg)
  {
    match step {
      case SubmitStep(spec, id, now) => SubmitTells(s, spec, id, now, js, cfg);
      case PriorityStep(id, priority) => if id in s.q.queued.vals { PriorityTells(s.q, id, priority, js, cfg); }
      case CancelStep(id, now) => if id in s.q.Ids() { CancelTells(s.q, id, now, js, cfg); }
      case ConfirmStep(id, pid, now) => if id in s.q.reserved.vals { ConfirmTells(s.q, id, pid, now, js, cfg); }
      case FinishStep(id, exitCode, now) => TickStepTells(s, step, js, cfg);
      case FailStep(id, now) => TickStepTells(s, step, js, cfg);
      case MonitorStep(o) => SameStory(s.q, Do(s, step, cfg).q, js, cfg);
      case SnapshotStep(cards, procs, timestamp) =>
      case CycleStep(input) => if s.inFlight.Some? { CycleTells(s, input, js, cfg); }
    }
  }

  /** As `RunSafety.Reached`, where `js` tells what happened to each accepted task. */
  ghost predicate ReachedTelling(steps: seq<Step>, w: World, totals: Totals, cfg: Config, js: map<TaskId, Journal>)
    decreases |steps|
  {
    if steps == [] then w == START && js == map[]
    else exists before: World, earlier: map<TaskId, Journal> ::
      && ReachedTelling(Init(steps), before, totals, cfg, earlier) && Leads(before, Last(steps), w, totals, cfg)
      && js == Told(earlier, before.node, Last(steps), cfg)
  }

  /** Every run has such journals. */
  lemma {:induction false} EveryRunTells(steps: seq<Step>, w: World, totals: Totals, cfg: Config)
    returns (js: map<TaskId, Journal>)
    requires Reached(steps, w, totals, cfg)
    ensures ReachedTelling(steps, w, totals, cfg, js)
    decreases |steps|
  {
    if steps == [] {
      js := map[];
    } else {
      var before: World :| Reached(Init(steps), before, totals, cfg) && Leads(before, Last(steps), w, totals, cfg);
      var earlier := EveryRunTells(Init(steps), before, totals, cfg);
      js := Told(earlier, before.node, Last(steps), cfg);
    }
  }

  lemma {:induction false} LedTells(before: World, step: Step, w: World, totals: Totals, cfg: Config,
        earlier: map<TaskId, Journal>)
    requires Leads(before, step, w, totals, cfg) && Tells(before.node.q, earlier, cfg)
    ensures Tells(w.node.q, Told(earlier, before.node, step, cfg), cfg)
  {
    StepTells(before.node, step, earlier, cfg);
    assert w.node == Do(before.node, step, cfg);
  }

  /** RECORDS TELL. In every reachable state each record is, in every field, what the task's journal makes of it: the spec it
      was submitted with and when, the priority set last, the GPUs and the clock of the cycle that reserved it, the pid and
      the clock of the launch or the confirmation that started it, what the cycles since have seen, and how, when and why it
      ended. */
  lemma {:induction false} RecordsTell(steps: seq<Step>, w: World, totals: Totals, cfg: Config, js: map<TaskId, Journal>)
    requires ReachedTelling(steps, w, totals, cfg, js)
    ensures Tells(w.node.q, js, cfg)
    decreases |steps|
  {
    if steps == [] {
      forall k ensures TellsAt(EMPTY_QUEUE, map[], cfg, k) {}
    } else {
      var before: World, earlier: map<TaskId, Journal> :|
        && ReachedTelling(Init(steps), before, totals, cfg, earlier) && Leads(before, Last(steps), w, totals, cfg)
        && js == Told(earlier, before.node, Last(steps), cfg);
      RecordsTell(Init(steps), before, totals, cfg, earlier);
      LedTells(before, Last(steps), w, totals, cfg, earlier);
    }
  }
}
