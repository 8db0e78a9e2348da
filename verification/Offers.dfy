/** What a GPU has to show to be given to a task, in plain numbers: exactly such GPUs are offered, and a task gets as many as
    it asks for, those with the most free memory, if and only if so many are offered. */
module Offers {
  import opened Basics
  import opened Models
  import opened Attribution
  import opened Scheduling
  import opened SchedulingFacts
  import opened BatchRefinement

  // ---------------------------------------------------------------------------
  // One GPU
  // ---------------------------------------------------------------------------

  /** No task, and less than 3% of the card used by other processes. */
  predicate ShowsIdle(gpu: GpuSummary) {
    gpu.pmeowTasks == [] && (gpu.totalMb > 0.0 ==> UnmanagedMb(gpu) < 0.03 * gpu.totalMb)
  }

  ghost predicate IdleIn(sample: Sample, g: int) {
    forall j :: 0 <= j < |sample| && sample[j].gpuIndex == g ==> ShowsIdle(sample[j])
  }

  /** Idle, and below 3% in utilization and in all memory used. */
  predicate ShowsQuiet(gpu: GpuSummary) {
    ShowsIdle(gpu) && gpu.utilization < 3.0 && (gpu.totalMb > 0.0 ==> gpu.usedMb < 0.03 * gpu.totalMb)
  }

  /** An earlier decision of the batch took the GPU, or reserved memory on it. */
  predicate Withheld(p: Pending, g: int) {
    g in p.exclusive || (g in p.shared && p.shared[g] > 0.0)
  }

  ghost predicate OfferedWhole(view: View, p: Pending, i: int)
    requires 0 <= i < |view.current|
  {
    var gpu := view.current[i];
    && ShowsQuiet(gpu) && !Withheld(p, gpu.gpuIndex)
    && forall k :: 0 <= k < |view.history| ==> IdleIn(view.history[k].sample, gpu.gpuIndex)
  }

  predicate Owned(gpu: GpuSummary) {
    exists k :: 0 <= k < |gpu.pmeowTasks| && gpu.pmeowTasks[k].exclusiveActive
  }

  function PendingMb(p: Pending, g: int): real {
    if g in p.shared then p.shared[g] else 0.0
  }

  /** 0.98 of the card without what is declared, what is pending, and 1.05 of the largest unmanaged memory seen. */
  function RoomMb(view: View, p: Pending, gpu: GpuSummary): real {
    0.98 * gpu.totalMb - ManagedMb(gpu.pmeowTasks) as real - PendingMb(p, gpu.gpuIndex)
      - 1.05 * Peak(Flat(view.history) + view.current, gpu.gpuIndex)
  }

  /** No exclusive owner, listed or pending, and enough room unless nothing is asked for. */
  ghost predicate OfferedShared(view: View, p: Pending, mb: int, i: int)
    requires 0 <= i < |view.current|
  {
    var gpu := view.current[i];
    !Owned(gpu) && gpu.gpuIndex !in p.exclusive && (mb <= 0 || RoomMb(view, p, gpu) >= mb as real)
  }

  /** The GPU at place `i` can be given to the task. */
  ghost predicate OfferedAt(view: View, p: Pending, t: Task, i: int)
    requires 0 <= i < |view.current|
  {
    if t.vramMode.ExclusiveAuto? then OfferedWhole(view, p, i)
    else OfferedShared(view, p, if t.requestedVramMb.Some? then t.requestedVramMb.value else t.requireVramMb, i)
  }

  /** Every sample lists each GPU once. */
  ghost predicate Distinct(view: View) {
    DistinctGpus(view.current) && forall k :: 0 <= k < |view.history| ==> DistinctGpus(view.history[k].sample)
  }

  lemma {:induction false} IdleSampleMeans(sample: Sample, g: int)
    requires DistinctGpus(sample)
    ensures IdleIfPresent(sample, g) <==> IdleIn(sample, g)
  {
    if j :| 0 <= j < |sample| && sample[j].gpuIndex == g {
      FirstForIndex(sample, j);
      IdleMeans(sample[j]);
    } else {
      AbsentFirst(sample, g);
    }
  }

  lemma {:induction false} AbsentFirst(sample: Sample, g: int)
    requires forall j :: 0 <= j < |sample| ==> sample[j].gpuIndex != g
    ensures FirstFor(sample, g).None?
    decreases |sample|
  {
    if sample != [] { AbsentFirst(sample[1..], g); }
  }

  lemma {:induction false} BelowThree(mb: real, totalMb: real)
    ensures UsedPercent(mb, totalMb) < 3.0 <==> (totalMb > 0.0 ==> mb < 0.03 * totalMb)
  {
    if totalMb > 0.0 {
      var share := mb / totalMb;
      assert share * totalMb == mb;
      if share < 0.03 { assert share * totalMb < 0.03 * totalMb; } else { assert share * totalMb >= 0.03 * totalMb; }
    }
  }

  lemma {:induction false} IdleMeans(gpu: GpuSummary)
    ensures IdleInSample(gpu) <==> ShowsIdle(gpu)
  {
    BelowThree(UnmanagedMb(gpu), gpu.totalMb);
  }

  lemma {:induction false} FitsWholeMeans(view: View, p: Pending, i: nat)
    requires Distinct(view) && i < |view.current|
    ensures Fits(LedgerOf(view.current[i], Flat(view.history) + view.current, p), WholeGpu, view.history, view.current)
      <==> OfferedWhole(view, p, i)
  {
    var gpu := view.current[i];
    var g := gpu.gpuIndex;
    BelowThree(gpu.usedMb, gpu.totalMb);
    IdleSampleMeans(view.current, g);
    OnlyAt(view.current, i);
    forall k | 0 <= k < |view.history|
      ensures IdleIfPresent(view.history[k].sample, g) <==> IdleIn(view.history[k].sample, g)
    {
      IdleSampleMeans(view.history[k].sample, g);
    }
  }

  lemma {:induction false} OnlyAt(sample: Sample, i: nat)
    requires DistinctGpus(sample) && i < |sample|
    ensures IdleIn(sample, sample[i].gpuIndex) <==> ShowsIdle(sample[i])
  {
  }

  lemma {:induction false} FitsSharedMeans(view: View, p: Pending, mb: int, i: nat)
    requires i < |view.current|
    ensures Fits(LedgerOf(view.current[i], Flat(view.history) + view.current, p), SharedMb(mb), view.history, view.current)
      <==> OfferedShared(view, p, mb, i)
  {
  }

  lemma {:induction false} FitsMeans(view: View, p: Pending, t: Task, i: nat)
    requires Distinct(view) && i < |view.current|
    ensures Fits(LedgerOf(view.current[i], Flat(view.history) + view.current, p), RequestOf(t), view.history, view.current)
      <==> OfferedAt(view, p, t, i)
  {
    if t.vramMode.ExclusiveAuto? {
      FitsWholeMeans(view, p, i);
    } else {
      FitsSharedMeans(view, p, t.requestedVramMb.GetOr(t.requireVramMb), i);
    }
  }

  // ---------------------------------------------------------------------------
  // What a task gets
  // ---------------------------------------------------------------------------

  /** The GPUs that can be given to the task. */
  ghost function Offered(view: View, p: Pending, t: Task): set<int> {
    set i | 0 <= i < |view.current| && OfferedAt(view, p, t, i) :: view.current[i].gpuIndex
  }

  /** No GPU that is offered and not given has more room than a given one; rooms below zero count as none. */
  ghost predicate MostRoom(view: View, p: Pending, t: Task, gpus: seq<int>, i: int, j: int)
    requires 0 <= i < |view.current| && 0 <= j < |view.current|
  {
    view.current[i].gpuIndex in gpus && view.current[j].gpuIndex !in gpus && OfferedAt(view, p, t, j) ==>
      RoomMb(view, p, view.current[j]) <= RoomMb(view, p, view.current[i]) || RoomMb(view, p, view.current[j]) <= 0.0
  }

  ghost predicate WellGiven(view: View, p: Pending, t: Task, gpus: seq<int>) {
    && DistinctInts(gpus) && (forall g :: g in gpus ==> g in Offered(view, p, t))
    && (t.requireGpuCount >= 0 ==> |gpus| == t.requireGpuCount)
    && forall i, j :: 0 <= i < |view.current| && 0 <= j < |view.current| ==> MostRoom(view, p, t, gpus, i, j)
  }

  lemma {:induction false} OfferedCounted(view: View, p: Pending, t: Task)
    requires Distinct(view)
    ensures |view.EligibleFor(t, p)| == |Offered(view, p, t)|
  {
    var ledgers, offered := view.LedgersWith(p), Offered(view, p, t);
    forall l | l in ledgers
      ensures Fits(l, RequestOf(t), view.history, view.current) <==> l.gpuIndex in offered
    {
      var i :| 0 <= i < |ledgers| && ledgers[i] == l;
      FitsMeans(view, p, t, i);
      if l.gpuIndex in offered {
        var j :| 0 <= j < |view.current| && OfferedAt(view, p, t, j) && view.current[j].gpuIndex == l.gpuIndex;
      }
    }
    forall g | g in offered
      ensures exists l :: l in ledgers && l.gpuIndex == g
    {
      var i :| 0 <= i < |view.current| && OfferedAt(view, p, t, i) && view.current[i].gpuIndex == g;
      assert ledgers[i] in ledgers && ledgers[i].gpuIndex == g;
    }
    EligibleCounted(ledgers, RequestOf(t), view.history, view.current, offered);
  }

  lemma {:induction false} GivenIsOffered(view: View, p: Pending, t: Task, gpus: seq<int>, g: int)
    requires Distinct(view) && view.PickFor(t, p) == Some(gpus) && g in gpus
    ensures g in Offered(view, p, t)
  {
    var i := PickedFits(view, p, t, gpus, g);
    FitsMeans(view, p, t, i);
  }

  lemma {:induction false} GivenHasMostRoom(view: View, p: Pending, t: Task, gpus: seq<int>, i: nat, j: nat)
    requires Distinct(view) && view.PickFor(t, p) == Some(gpus) && i < |view.current| && j < |view.current|
    ensures MostRoom(view, p, t, gpus, i, j)
  {
    if view.current[i].gpuIndex in gpus && view.current[j].gpuIndex !in gpus && OfferedAt(view, p, t, j) {
      var ledgers := view.LedgersWith(p);
      PickCorrect(ledgers, RequestOf(t), t.requireGpuCount, view.history, view.current);
      FitsMeans(view, p, t, j);
      var chosen := Chosen(ledgers, RequestOf(t), t.requireGpuCount, view.history, view.current);
      assert ledgers[j] in Eligible(ledgers, RequestOf(t), view.history, view.current);
      ChosenIsGiven(chosen, ledgers[j]);
      var k :| 0 <= k < |gpus| && gpus[k] == view.current[i].gpuIndex;
      assert chosen[k] in chosen;
      var m :| 0 <= m < |ledgers| && ledgers[m] == chosen[k];
      assert m == i;
      assert ledgers[i].effectiveFreeMb >= ledgers[j].effectiveFreeMb;
    }
  }

  lemma {:induction false} ChosenIsGiven(chosen: seq<Ledger>, l: Ledger)
    ensures l in chosen ==> l.gpuIndex in GpuIds(chosen)
  {
    if l in chosen {
      var k :| 0 <= k < |chosen| && chosen[k] == l;
      assert GpuIds(chosen)[k] == l.gpuIndex;
    }
  }

  /** A task gets GPUs if and only if at least as many are offered as it asks for; then they are offered, distinct, as many
      as asked for, and no offered GPU left out has more room. */
  lemma {:induction false} GivenExactly(view: View, p: Pending, t: Task)
    requires Distinct(view)
    ensures var given := view.PickFor(t, p);
      && (given.Some? <==> |Offered(view, p, t)| >= t.requireGpuCount)
      && (given.Some? ==> WellGiven(view, p, t, given.value))
  {
    OfferedCounted(view, p, t);
    PickCorrect(view.LedgersWith(p), RequestOf(t), t.requireGpuCount, view.history, view.current);
    var given := view.PickFor(t, p);
    if given.Some? {
      PickedDistinct(view, t, p);
      forall g | g in given.value ensures g in Offered(view, p, t) { GivenIsOffered(view, p, t, given.value, g); }
      forall i, j | 0 <= i < |view.current| && 0 <= j < |view.current|
        ensures MostRoom(view, p, t, given.value, i, j)
      {
        GivenHasMostRoom(view, p, t, given.value, i, j);
      }
    }
  }

  /** The GPUs that an evaluation names as eligible are those offered. */
  lemma {:induction false} EligibleAreOffered(t: Task, view: View, b: Batch, g: int)
    requires Distinct(view)
    ensures g in Evaluate(t, view, b).eligible <==> g in Offered(view, b.pending, t)
  {
    var ledgers, eligible := view.LedgersWith(b.pending), view.EligibleFor(t, b.pending);
    if g in GpuIds(eligible) {
      var k :| 0 <= k < |eligible| && GpuIds(eligible)[k] == g;
      assert eligible[k] in eligible;
      var i :| 0 <= i < |ledgers| && ledgers[i] == eligible[k];
      FitsMeans(view, b.pending, t, i);
      assert view.current[i].gpuIndex == g;
    }
    if g in Offered(view, b.pending, t) {
      var i :| 0 <= i < |view.current| && OfferedAt(view, b.pending, t, i) && view.current[i].gpuIndex == g;
      FitsMeans(view, b.pending, t, i);
      assert ledgers[i] in eligible;
      ChosenIsGiven(eligible, ledgers[i]);
    }
  }

  // ---------------------------------------------------------------------------
  // Blockers
  // ---------------------------------------------------------------------------

  function TaskIds(ds: seq<Decision>): (r: seq<TaskId>)
    ensures |r| == |ds| && forall i :: 0 <= i < |r| ==> r[i] == ds[i].taskId
  {
    seq(|ds|, i requires 0 <= i < |ds| => ds[i].taskId)
  }

  /** The blockers that an evaluation names are the tasks decided before it in the batch, in order. */
  lemma {:induction false} BlockersAreEarlier(tasks: seq<Task>, view: View, b: Batch, n: nat)
    requires n < |tasks|
    ensures Schedule(tasks, view, b)[n].taskId == tasks[n].id
    ensures Schedule(tasks, view, b)[n].blockers == b.prior + TaskIds(Decisions(Schedule(tasks[..n], view, b)))
    decreases n
  {
    var e := Evaluate(tasks[0], view, b);
    if n == 0 {
      assert b.prior + [] == b.prior;
    } else {
      var after := After(tasks[0], e, b);
      BlockersAreEarlier(tasks[1..], view, after, n - 1);
      assert tasks[..n][1..] == tasks[1..][..n - 1];
      ScheduleStep(tasks[..n], view, b);
      var rest := Decisions(Schedule(tasks[1..][..n - 1], view, after));
      if e.canRun { PriorSnoc(b.prior, tasks[0].id, e.gpuIds, rest); } else { assert [] + rest == rest; }
    }
  }

  lemma {:induction false} PriorSnoc(prior: seq<TaskId>, id: TaskId, gpus: seq<int>, rest: seq<Decision>)
    ensures prior + [id] + TaskIds(rest) == prior + TaskIds([Decision(id, gpus)] + rest)
  {
    assert TaskIds([Decision(id, gpus)] + rest) == [id] + TaskIds(rest);
  }
}
