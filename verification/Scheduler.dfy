/** The scheduler's loops: filling the peak table and walking one batch of queued tasks. */
module Scheduler {
  import opened Basics
  import opened Models
  import opened Attribution
  import opened History
  import opened Scheduling

  ghost predicate PeakAt(peaks: map<int, real>, seen: seq<GpuSummary>, g: int) {
    MapGet(peaks, g) == Peak(seen, g)
  }

  method AddSample(peaks0: map<int, real>, ghost seen: seq<GpuSummary>, sample: Sample) returns (peaks: map<int, real>)
    requires forall g :: PeakAt(peaks0, seen, g)
    ensures forall g :: PeakAt(peaks, seen + sample, g)
  {
    peaks := peaks0;
    assert seen + sample[..0] == seen;
    for n := 0 to |sample|
      invariant forall g :: PeakAt(peaks, seen + sample[..n], g)
    {
      var gpu := sample[n];
      var mem := UnmanagedMb(gpu);
      ghost var before := peaks;
      ghost var front := seen + sample[..n];
      assert PeakAt(peaks, front, gpu.gpuIndex);
      if mem > MapGet(peaks, gpu.gpuIndex) {
        peaks := peaks[gpu.gpuIndex := mem];
      }
      assert seen + sample[..n + 1] == front + [gpu];
      InitSnoc(front, gpu);
      forall g
        ensures PeakAt(peaks, front + [gpu], g)
      {
        assert PeakAt(before, front, g);
      }
    }
    assert seen + sample[..|sample|] == seen + sample;
  }

  method BuildGpuLedgers(current: Sample, history: seq<TimedSample>, pending: Pending) returns (ledgers: seq<Ledger>)
    ensures ledgers == Ledgers(current, history, pending)
  {
    var peaks: map<int, real> := map[];
    assert forall g :: PeakAt(peaks, [], g);
    for n := 0 to |history|
      invariant forall g :: PeakAt(peaks, Flat(history[..n]), g)
    {
      peaks := AddSample(peaks, Flat(history[..n]), history[n].sample);
      assert Init(history[..n + 1]) == history[..n] && Last(history[..n + 1]) == history[n];
    }
    assert history[..|history|] == history;
    peaks := AddSample(peaks, Flat(history), current);
    ledgers := [];
    for n := 0 to |current|
      invariant |ledgers| == n
      invariant forall i :: 0 <= i < n ==> ledgers[i] == LedgerOf(current[i], Flat(history) + current, pending)
    {
      assert PeakAt(peaks, Flat(history) + current, current[n].gpuIndex);
      var ledger := BuildLedger(current[n], MapGet(peaks, current[n].gpuIndex), Flat(history) + current, pending);
      ledgers := ledgers + [ledger];
    }
  }

  method BuildLedger(gpu: GpuSummary, unmanagedPeak: real, ghost seen: seq<GpuSummary>,
        pending: Pending) returns (l: Ledger)
    requires unmanagedPeak == Peak(seen, gpu.gpuIndex)
    ensures l == LedgerOf(gpu, seen, pending)
  {
    var schedulable := gpu.totalMb * CAPACITY_FACTOR;
    var managed := ManagedMb(gpu.pmeowTasks) as real + MapGet(pending.shared, gpu.gpuIndex);
    var hasExclusive := HasOwner(gpu) || gpu.gpuIndex in pending.exclusive;
    var peak := unmanagedPeak * UNMANAGED_MULTIPLIER;
    var effectiveFree := MaxReal(0.0, schedulable - managed - peak);
    l := Ledger(gpu.gpuIndex, gpu.totalMb, schedulable, managed, hasExclusive, peak, gpu.utilization,
                UsedPercent(gpu.usedMb, gpu.totalMb), effectiveFree);
  }

  class QueueScheduler {
    const history: GpuHistoryTracker

    constructor (history: GpuHistoryTracker)
      ensures this.history == history
    {
      this.history := history;
    }

    /** Evaluates the queued tasks in order; what one task is given is withheld from the later ones. */
    method TrySchedule(queued: seq<Task>, current: Sample, now: real)
      returns (evaluations: seq<Evaluation>, decisions: seq<Decision>)
      ensures var view := View(current, Since(history.samples, now - history.windowSeconds));
        evaluations == Schedule(queued, view, EMPTY_BATCH) && decisions == Decisions(evaluations)
    {
      var samples := history.GetHistory(now, None);
      evaluations, decisions := ScheduleAll(queued, current, samples);
    }
  }

  method ScheduleAll(queued: seq<Task>, current: Sample, samples: seq<TimedSample>)
    returns (evaluations: seq<Evaluation>, decisions: seq<Decision>)
    ensures evaluations == Schedule(queued, View(current, samples), EMPTY_BATCH)
    ensures decisions == Decisions(evaluations)
  {
    ghost var view := View(current, samples);
    ghost var goal := Schedule(queued, view, EMPTY_BATCH);
    assert queued[0..] == queued;
    var batch := EMPTY_BATCH;
    evaluations, decisions := [], [];
    for n := 0 to |queued|
      invariant Remaining(goal, evaluations, queued[n..], view, batch)
      invariant decisions == Decisions(evaluations)
    {
      var evaluation := EvaluateTask(queued[n], current, samples, batch.pending, batch.prior);
      RemainingStep(goal, evaluations, queued, n, view, batch);
      DecisionsSnoc(evaluations, evaluation);
      evaluations := evaluations + [evaluation];
      batch, decisions := Settle(batch, decisions, queued[n], evaluation);
    }
    RemainingNone(goal, evaluations, view, batch);
  }

  /** Books one task's outcome: a scheduled task becomes a decision and withholds its GPUs from the rest. */
  method Settle(batch0: Batch, decisions0: seq<Decision>, task: Task, evaluation: Evaluation)
    returns (batch: Batch, decisions: seq<Decision>)
    requires evaluation.taskId == task.id
    ensures batch == After(task, evaluation, batch0)
    ensures decisions == if evaluation.canRun then decisions0 + [Decision(task.id, evaluation.gpuIds)] else decisions0
  {
    batch, decisions := batch0, decisions0;
    if evaluation.canRun {
      decisions := decisions + [Decision(task.id, evaluation.gpuIds)];
      var pending := ReserveInBatch(batch.pending, task, evaluation.gpuIds);
      batch := Batch(pending, batch.prior + [task.id]);
    }
  }

  method ReserveInBatch(pending0: Pending, task: Task, gpus: seq<int>) returns (pending: Pending)
    ensures pending == Reserving(pending0, task, gpus)
  {
    if task.vramMode.ExclusiveAuto? {
      var exclusive := AddExclusive(pending0.exclusive, gpus);
      return pending0.(exclusive := exclusive);
    } else {
      var shared := AddReservations(pending0.shared, gpus, task.requestedVramMb.GetOr(task.requireVramMb) as real);
      return pending0.(shared := shared);
    }
  }

  method EvaluateTask(task: Task, current: Sample, samples: seq<TimedSample>, pending: Pending, prior: seq<TaskId>)
    returns (evaluation: Evaluation)
    ensures evaluation == Evaluate(task, View(current, samples), Batch(pending, prior))
  {
    var ledgers := BuildGpuLedgers(current, samples, pending);
    var request := RequestOf(task);
    var gpuIds := Pick(ledgers, request, task.requireGpuCount, samples, current);
    var eligible := GpuIds(Eligible(ledgers, request, samples, current));
    if gpuIds.Some? {
      return Evaluation(task.id, true, Scheduled, gpuIds.value, eligible, prior);
    }
    var baseline := BuildGpuLedgers(current, samples, NO_PENDING);
    var baselineIds := Pick(baseline, request, task.requireGpuCount, samples, current);
    var reason;
    if baselineIds.Some? && prior != [] {
      reason := BlockedByHigherPriority;
    } else if |eligible| < task.requireGpuCount {
      reason := InsufficientGpuCount;
    } else {
      reason := SustainedWindowNotSatisfied;
    }
    evaluation := Evaluation(task.id, false, reason, [], eligible, prior);
  }

  method AddExclusive(before: set<int>, gpus: seq<int>) returns (after: set<int>)
    ensures after == before + set g | g in gpus
  {
    after := before;
    for k := 0 to |gpus|
      invariant after == before + set g | g in gpus[..k]
    {
      assert gpus[..k + 1] == gpus[..k] + [gpus[k]];
      after := after + {gpus[k]};
    }
    assert gpus[..|gpus|] == gpus;
  }

  method AddReservations(before: map<int, real>, gpus: seq<int>, mb: real) returns (after: map<int, real>)
    ensures after == AddShared(before, gpus, mb)
  {
    after := before;
    for k := 0 to |gpus|
      invariant after == AddShared(before, gpus[..k], mb)
    {
      assert Init(gpus[..k + 1]) == gpus[..k] && Last(gpus[..k + 1]) == gpus[k];
      after := after[gpus[k] := MapGet(after, gpus[k]) + mb];
    }
    assert gpus[..|gpus|] == gpus;
  }

  /** `goal` is what has been evaluated followed by what scheduling the rest would give. */
  ghost predicate Remaining(goal: seq<Evaluation>, done: seq<Evaluation>, rest: seq<Task>, view: View, batch: Batch) {
    goal == done + Schedule(rest, view, batch)
  }

  lemma {:induction false} RemainingStep(goal: seq<Evaluation>, done: seq<Evaluation>, queued: seq<Task>, n: nat,
        view: View, batch: Batch)
    requires n < |queued| && Remaining(goal, done, queued[n..], view, batch)
    ensures var e := Evaluate(queued[n], view, batch);
      Remaining(goal, done + [e], queued[n + 1..], view, After(queued[n], e, batch))
  {
  }

  lemma {:induction false} RemainingNone(goal: seq<Evaluation>, done: seq<Evaluation>, view: View, batch: Batch)
    requires Remaining(goal, done, [], view, batch)
    ensures goal == done
  {
  }

  lemma {:induction false} DecisionsSnoc(es: seq<Evaluation>, e: Evaluation)
    ensures Decisions(es + [e]) == if e.canRun then Decisions(es) + [Decision(e.taskId, e.gpuIds)] else Decisions(es)
  {
    if es == [] {
      assert [] + [e] == [e];
    } else {
      assert (es + [e])[1..] == es[1..] + [e];
      DecisionsSnoc(es[1..], e);
    }
  }
}
