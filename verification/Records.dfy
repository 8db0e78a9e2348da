/** What a task's record says in each status, in every reachable state; and that a report shows every task once. */
module Records {
  import opened Basics
  import opened Models
  import opened OrderedDicts
  import opened QueueSpec
  import opened Node
  import opened Runs
  import opened Safety
  import NodeSafety
  import Reclaim
  import RunSafety
  import Scheduling
  import TickMeaning

  // ---------------------------------------------------------------------------
  // One record
  // ---------------------------------------------------------------------------

  predicate NotEnded(t: Task) {
    t.finishedAt.None? && t.endReason.None? && t.exitCode.None?
  }

  /** GPUs are assigned when the task is reserved, and declared as its mode asks. */
  predicate HasGpus(t: Task) {
    && t.assignedGpus.Some? && t.reservedAt.Some?
    && t.declaredVramPerGpu == Some(if t.vramMode.ExclusiveAuto? then 0 else t.requestedVramMb.GetOr(t.requireVramMb))
  }

  /** A foreground reservation has a deadline, a background one has none. */
  predicate DeadlineOk(t: Task, cfg: Config) {
    t.attachDeadline ==
      if t.launchMode.Foreground? then Some(t.reservedAt.GetOr(0.0) + cfg.attachTimeout) else None
  }

  predicate RecordOk(t: Task, cfg: Config) {
    match t.status
    case Queued =>
      NotEnded(t) && t.assignedGpus.None? && t.reservedAt.None? && t.startedAt.None? && t.pid.None? && t.autoPeakMb.None?
        && !t.autoReclaimDone
    case Reserved =>
      NotEnded(t) && HasGpus(t) && DeadlineOk(t, cfg) && t.startedAt.None? && t.pid.None? && !t.autoReclaimDone
    case Running => NotEnded(t) && HasGpus(t) && DeadlineOk(t, cfg) && t.startedAt.Some? && t.pid.Some?
    case Succeeded => t.finishedAt.Some? && t.endReason == Some(ExitZero) && t.exitCode == Some(0) && t.pid.Some?
    case Failed =>
      t.finishedAt.Some? && t.endReason == Some(ExitNonzero) && t.exitCode.Some? && t.exitCode != Some(0) && t.pid.Some?
    case Cancelled => t.finishedAt.Some? && t.endReason == Some(CancelledByUser) && t.exitCode.None?
    case Abnormal => t.finishedAt.Some? && t.endReason.Some? && t.exitCode.None? && HasGpus(t)
  }

  ghost predicate AllOk(vals: map<TaskId, Task>, cfg: Config) {
    forall k :: k in vals ==> RecordOk(vals[k], cfg)
  }

  ghost predicate RecordsOk(q: QueueState, cfg: Config) {
    AllOk(q.queued.vals, cfg) && AllOk(q.reserved.vals, cfg) && AllOk(q.running.vals, cfg) && AllOk(q.terminal.vals, cfg)
  }

  // ---------------------------------------------------------------------------
  // Steps
  // ---------------------------------------------------------------------------

  lemma {:induction false} VerdictOk(q: QueueState, id: TaskId, cfg: Config)
    requires QueueInv(q) && RecordsOk(q, cfg) && TickMeaning.Verdict(q, id).Some?
    ensures RecordOk(TickMeaning.Verdict(q, id).value, cfg)
  {
  }

  lemma {:induction false} TickKeepsRecords(q: QueueState, cfg: Config)
    requires QueueInv(q) && RecordsOk(q, cfg)
    ensures RecordsOk(Tick(q).0, cfg)
  {
    TickMeaning.TickCorrect(q);
    var r := Tick(q).0;
    forall k | k in r.terminal.vals
      ensures RecordOk(r.terminal.vals[k], cfg)
    {
      if TickMeaning.Verdict(q, k).Some? { VerdictOk(q, k, cfg); }
    }
  }

  lemma {:induction false} CancelKeepsRecords(q: QueueState, id: TaskId, now: real, cfg: Config)
    requires QueueInv(q) && RecordsOk(q, cfg)
    ensures RecordsOk(Cancel(q, id, now), cfg)
  {
  }

  lemma {:induction false} SubmitKeepsRecords(q: QueueState, spec: TaskSpec, id: TaskId, now: real, cfg: Config)
    requires QueueInv(q) && RecordsOk(q, cfg) && id !in q.Ids()
    ensures RecordsOk(Submit(q, spec, id, now), cfg)
  {
    assert RecordOk(NewTask(spec, id, now), cfg);
    assert Submit(q, spec, id, now).queued.vals == q.queued.vals[id := NewTask(spec, id, now)];
  }

  lemma {:induction false} PriorityKeepsRecords(q: QueueState, id: TaskId, priority: int, cfg: Config)
    requires QueueInv(q) && RecordsOk(q, cfg)
    ensures RecordsOk(SetPriority(q, id, priority), cfg)
  {
    if id in q.queued.vals {
      assert SetPriority(q, id, priority).queued.vals == q.queued.vals[id := q.queued.vals[id].(priority := priority)];
    }
  }

  lemma {:induction false} ReserveKeepsRecords(q: QueueState, id: TaskId, gpus: seq<int>, now: real, cfg: Config)
    requires QueueInv(q) && RecordsOk(q, cfg) && id in q.queued.vals
    ensures RecordsOk(Reserve(q, id, gpus, NodeSafety.DeadlineFor(q.queued.vals[id], now, cfg), now), cfg)
  {
    var t := q.queued.vals[id];
    assert RecordOk(t, cfg);
    assert RecordOk(AsReserved(t, gpus, NodeSafety.DeadlineFor(t, now, cfg), now), cfg);
  }

  lemma {:induction false} StartKeepsRecords(q: QueueState, id: TaskId, pid: int, now: real, cfg: Config)
    requires QueueInv(q) && RecordsOk(q, cfg) && id in q.reserved.vals
    ensures RecordsOk(Start(q, id, pid, now), cfg)
  {
    assert RecordOk(q.reserved.vals[id], cfg);
    assert RecordOk(AsStarted(q.reserved.vals[id], pid, now), cfg);
  }

  lemma {:induction false} ReclaimKeepsRecords(q: QueueState, perGpu: Sample, now: real, cfg: Config)
    requires QueueInv(q) && RecordsOk(q, cfg)
    ensures RecordsOk(ReclaimAll(q, perGpu, now), cfg)
  {
    forall k | k in q.running.vals
      ensures RecordOk(Reclaim.Updated(q.running.vals[k], perGpu, now), cfg)
    {
      assert RecordOk(q.running.vals[k], cfg);
      UpdatedKeepsRecord(q.running.vals[k], perGpu, now, cfg);
    }
    assert ReclaimAll(q, perGpu, now).queued == q.queued && ReclaimAll(q, perGpu, now).reserved == q.reserved;
  }

  lemma {:induction false} UpdatedKeepsRecord(t: Task, perGpu: Sample, now: real, cfg: Config)
    requires t.status.Running? && RecordOk(t, cfg)
    ensures RecordOk(Reclaim.Updated(t, perGpu, now), cfg)
  {
  }

  lemma {:induction false} LaunchKeepsRecords(q: QueueState, ds: seq<Scheduling.Decision>, pids: map<TaskId, int>,
      clock: real, cfg: Config)
    requires QueueInv(q) && RecordsOk(q, cfg)
    ensures RecordsOk(Launch(q, ds, pids, clock, cfg).0, cfg)
    decreases |ds|
  {
    if ds != [] {
      var id, gpus := ds[0].taskId, ds[0].gpuIds;
      if id !in q.queued.vals {
        LaunchKeepsRecords(q, ds[1..], pids, clock, cfg);
      } else {
        var t := q.queued.vals[id];
        NodeSafety.LaunchUnfolded(q, t, gpus, ds, pids, clock, cfg);
        var q1 := Reserve(q, id, gpus, NodeSafety.DeadlineFor(t, clock, cfg), clock);
        ReserveKeepsRecords(q, id, gpus, clock, cfg);
        if t.launchMode.Foreground? {
          LaunchKeepsRecords(q1, ds[1..], pids, clock, cfg);
        } else if id in pids {
          StartKeepsRecords(q1, id, pids[id], clock, cfg);
          LaunchKeepsRecords(Start(q1, id, pids[id], clock), ds[1..], pids, clock, cfg);
        }
      }
    }
  }

  lemma {:induction false} MarkKeepsRecords(q: QueueState, cfg: Config)
    requires QueueInv(q) && RecordsOk(q, cfg)
    ensures RecordsOk(MarkReported(q), cfg)
  {
    forall k | k in q.terminal.vals
      ensures RecordOk(q.terminal.vals[k].(reportedSinceTerminal := true), cfg)
    {
      assert RecordOk(q.terminal.vals[k], cfg);
    }
  }

  lemma {:induction false} CycleKeepsRecords(s: NodeState, input: CycleInput, cfg: Config)
    requires QueueInv(s.q) && s.inFlight.Some? && RecordsOk(s.q, cfg)
    ensures RecordsOk(Cycle(s, input, cfg).q, cfg)
  {
    var q0 := s.q.(completions := s.q.completions + input.exits);
    TickKeepsRecords(q0, cfg);
    ReclaimKeepsRecords(Tick(q0).0, s.inFlight.value.sample, input.now, cfg);
    LaunchKeepsRecords(BeforeScheduling(s, input), DecisionsOf(s, input, cfg), input.pids, input.clock, cfg);
    MarkKeepsRecords(Launched(s, input, cfg).0, cfg);
  }

  lemma {:induction false} TickStepKeepsRecords(s: NodeState, step: Step, cfg: Config)
    requires QueueInv(s.q) && RecordsOk(s.q, cfg) && (step.FinishStep? || step.FailStep?)
    ensures RecordsOk(Do(s, step, cfg).q, cfg)
  {
    var at := AtTick(s, step);
    if at.Some? {
      TickKeepsRecords(at.value, cfg);
    }
  }

  lemma {:induction false} DoKeepsRecords(s: NodeState, step: Step, cfg: Config)
    requires QueueInv(s.q) && RecordsOk(s.q, cfg)
    requires step.SubmitStep? ==> step.id !in s.q.Ids()
    ensures RecordsOk(Do(s, step, cfg).q, cfg)
  {
    match step {
      case SubmitStep(spec, id, now) => SubmitKeepsRecords(s.q, Normalized(spec), id, now, cfg);
      case PriorityStep(id, priority) => PriorityKeepsRecords(s.q, id, priority, cfg);
      case CancelStep(id, now) => CancelKeepsRecords(s.q, id, now, cfg);
      case ConfirmStep(id, pid, now) => if id in s.q.reserved.vals { StartKeepsRecords(s.q, id, pid, now, cfg); }
      case FinishStep(id, exitCode, now) => TickStepKeepsRecords(s, step, cfg);
      case FailStep(id, now) => TickStepKeepsRecords(s, step, cfg);
      case MonitorStep(o) =>
      case SnapshotStep(cards, procs, timestamp) =>
      case CycleStep(input) => if s.inFlight.Some? { CycleKeepsRecords(s, input, cfg); }
    }
  }

  /** RECORDS. In every reachable state each record fits its status: GPUs, deadline, pid and times are set exactly from
      the transition that sets them on; a task succeeded iff its exit code is 0, failed iff it is another, and has no exit
      code when it was cancelled or ended abnormally. */
  lemma {:induction false} RecordsOverRuns(steps: seq<Step>, w: World, totals: Totals, cfg: Config)
    requires RunSafety.Reached(steps, w, totals, cfg)
    ensures RecordsOk(w.node.q, cfg)
    decreases |steps|
  {
    if steps != [] {
      var before: World :|
        RunSafety.Reached(Init(steps), before, totals, cfg) && Leads(before, Last(steps), w, totals, cfg);
      RecordsOverRuns(Init(steps), before, totals, cfg);
      DoKeepsRecords(before.node, Last(steps), cfg);
    }
  }

  // ---------------------------------------------------------------------------
  // Reports
  // ---------------------------------------------------------------------------

  function IdsOf(ts: seq<Task>): seq<TaskId> {
    seq(|ts|, i requires 0 <= i < |ts| => ts[i].id)
  }

  lemma {:induction false} ValuesIds(d: OrderedDict<Task>)
    requires d.Valid() && forall k :: k in d.vals ==> d.vals[k].id == k
    ensures IdsOf(d.Values()) == d.order
  {
  }

  /** A report lists every task of the queue exactly once: queued and reserved ones as queued, running and ended ones
      under their own heading. */
  lemma {:induction false} ReportListsEachOnce(q: QueueState)
    requires QueueInv(q)
    ensures var r := SnapshotOf(q); var ids := IdsOf(r.queued) + IdsOf(r.running) + IdsOf(r.recentlyEnded);
      && NoDup(ids) && (forall id :: id in ids <==> id in q.Ids())
      && (forall i :: 0 <= i < |r.queued| ==> r.queued[i].status.Queued? || r.queued[i].status.Reserved?)
      && (forall i :: 0 <= i < |r.running| ==> r.running[i].status.Running?)
      && (forall i :: 0 <= i < |r.recentlyEnded| ==> r.recentlyEnded[i].status.IsTerminal())
  {
    var r := SnapshotOf(q);
    ValuesIds(q.queued);
    ValuesIds(q.reserved);
    ValuesIds(q.running);
    ValuesIds(q.terminal);
    assert IdsOf(r.queued) == q.queued.order + q.reserved.order;
    ConcatNoDup(q.queued.order, q.reserved.order);
    ConcatNoDup(q.queued.order + q.reserved.order, q.running.order);
    ConcatNoDup(q.queued.order + q.reserved.order + q.running.order, q.terminal.order);
  }
}
