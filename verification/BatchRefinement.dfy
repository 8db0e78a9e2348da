/** The pending maps of one batch stand for real allocations: scheduling a queue in one batch decides the same as
    scheduling its tasks one at a time, each decision written into the sample before the next task is looked at, unless
    an exclusive task stands behind a shared one that reserves nothing. */
module BatchRefinement {
  import opened Basics
  import opened Models
  import opened Attribution
  import opened Scheduling
  import opened SchedulingFacts
  import QueueSpec
  import Sorting

  /** The sample once `t` holds `gpus`, as attribution would show it before `t` has any process. */
  function Materialised(current: Sample, t: Task, gpus: seq<int>): (r: Sample)
    ensures |r| == |current|
    ensures forall i :: 0 <= i < |r| ==> r[i] == WithTask(current[i], t, gpus)
  {
    seq(|current|, i requires 0 <= i < |current| => WithTask(current[i], t, gpus))
  }

  function WithTask(gpu: GpuSummary, t: Task, gpus: seq<int>): GpuSummary {
    if gpu.gpuIndex in gpus then
      gpu.(pmeowTasks := gpu.pmeowTasks
           + [AllocationOf(QueueSpec.AsReserved(t, gpus, None, 0.0), gpu.gpuIndex, 0.0, None)])
    else gpu
  }

  /** Schedules one task at a time, with no memory but the sample. */
  function OneByOne(tasks: seq<Task>, view: View): seq<Decision> {
    if tasks == [] then []
    else
      var picked := view.PickFor(tasks[0], NO_PENDING);
      if picked.Some? then
        [Decision(tasks[0].id, picked.value)]
        + OneByOne(tasks[1..], view.(current := Materialised(view.current, tasks[0], picked.value)))
      else OneByOne(tasks[1..], view)
  }

  /** What every queued task satisfies. */
  ghost predicate Queueable(t: Task) {
    NonNegative(t) && t.autoReclaimedMb.None?
  }

  /** A shared task that takes GPUs and reserves nothing on them. */
  predicate TakesNothing(t: Task) {
    RequestOf(t) == SharedMb(0) && t.requireGpuCount != 0
  }

  predicate TakesWhole(t: Task) {
    RequestOf(t) == WholeGpu && t.requireGpuCount != 0
  }

  /** The task at `j`, if exclusive, is not behind a shared one at `i` that reserves nothing. */
  ghost predicate NotBehind(tasks: seq<Task>, i: int, j: int)
    requires 0 <= i < j < |tasks|
  {
    TakesNothing(tasks[i]) ==> !TakesWhole(tasks[j])
  }

  /** No exclusive task stands behind a shared one that reserves nothing. */
  ghost predicate NothingBeforeWhole(tasks: seq<Task>) {
    forall i, j :: 0 <= i < j < |tasks| ==> NotBehind(tasks, i, j)
  }

  ghost predicate NoneWhole(tasks: seq<Task>) {
    forall t :: t in tasks ==> !TakesWhole(t)
  }

  // ---------------------------------------------------------------------------
  // The simulation
  // ---------------------------------------------------------------------------

  /** GPU `b` is GPU `a` with the reservations in `pending` made real. */
  ghost predicate RealisesAt(a: GpuSummary, b: GpuSummary, pending: Pending) {
    && b == a.(pmeowTasks := b.pmeowTasks)
    && ManagedMb(b.pmeowTasks) as real == ManagedMb(a.pmeowTasks) as real + MapGet(pending.shared, a.gpuIndex)
    && (HasOwner(b) <==> HasOwner(a) || a.gpuIndex in pending.exclusive)
  }

  /** The ledger shows whatever was added to the GPU. */
  ghost predicate Shown(a: GpuSummary, b: GpuSummary) {
    b.pmeowTasks == a.pmeowTasks || HasOwner(b) || ManagedMb(b.pmeowTasks) > 0
  }

  ghost predicate Realises(a: Sample, b: Sample, pending: Pending, shown: bool) {
    && |a| == |b|
    && DistinctGpus(a)
    && (forall i :: 0 <= i < |a| ==> RealisesAt(a[i], b[i], pending))
    && (shown ==> forall i :: 0 <= i < |a| ==> Shown(a[i], b[i]))
  }

  lemma {:induction false} SamePeak(a: seq<GpuSummary>, b: seq<GpuSummary>, idx: int)
    requires |a| == |b|
    requires forall i :: 0 <= i < |a| ==> b[i].gpuIndex == a[i].gpuIndex && UnmanagedMb(b[i]) == UnmanagedMb(a[i])
    ensures Peak(a, idx) == Peak(b, idx)
    decreases |a|
  {
    if a != [] {
      SamePeak(Init(a), Init(b), idx);
    }
  }

  lemma {:induction false} SameLedger(a: Sample, b: Sample, history: seq<TimedSample>, pending: Pending,
        shown: bool, i: nat)
    requires Realises(a, b, pending, shown) && i < |a|
    ensures LedgerOf(b[i], Flat(history) + b, NO_PENDING) == LedgerOf(a[i], Flat(history) + a, pending)
  {
    var x, y := Flat(history) + a, Flat(history) + b;
    forall k | 0 <= k < |x|
      ensures y[k].gpuIndex == x[k].gpuIndex && UnmanagedMb(y[k]) == UnmanagedMb(x[k])
    {
      if k >= |Flat(history)| { assert RealisesAt(a[k - |Flat(history)|], b[k - |Flat(history)|], pending); }
    }
    SamePeak(x, y, a[i].gpuIndex);
    assert RealisesAt(a[i], b[i], pending);
  }

  lemma {:induction false} FirstForIndex(sample: Sample, i: nat)
    requires DistinctGpus(sample) && i < |sample|
    ensures FirstFor(sample, sample[i].gpuIndex) == Some(sample[i])
    decreases i
  {
    if i > 0 {
      assert sample[0].gpuIndex != sample[i].gpuIndex;
      FirstForIndex(sample[1..], i - 1);
    }
  }

  lemma {:induction false} RealisedDistinct(a: Sample, b: Sample, pending: Pending, shown: bool)
    requires Realises(a, b, pending, shown)
    ensures DistinctGpus(b)
  {
    forall j, k | 0 <= j < k < |b|
      ensures b[j].gpuIndex != b[k].gpuIndex
    {
      assert RealisesAt(a[j], b[j], pending) && RealisesAt(a[k], b[k], pending);
    }
  }

  lemma {:induction false} SameFit(a: Sample, b: Sample, history: seq<TimedSample>, pending: Pending, shown: bool,
        request: Request, i: nat)
    requires Realises(a, b, pending, shown) && i < |a| && (shown || request.SharedMb?)
    ensures var l := LedgerOf(a[i], Flat(history) + a, pending);
      l == LedgerOf(b[i], Flat(history) + b, NO_PENDING)
      && (Fits(l, request, history, b) <==> Fits(l, request, history, a))
  {
    SameLedger(a, b, history, pending, shown, i);
    assert RealisesAt(a[i], b[i], pending);
    RealisedDistinct(a, b, pending, shown);
    if shown {
      assert Shown(a[i], b[i]);
      FirstForIndex(a, i);
      FirstForIndex(b, i);
    }
  }

  lemma {:induction false} SameEligible(ledgers: seq<Ledger>, request: Request, history: seq<TimedSample>, a: Sample,
        b: Sample)
    requires forall l :: l in ledgers ==> (Fits(l, request, history, a) <==> Fits(l, request, history, b))
    ensures Eligible(ledgers, request, history, a) == Eligible(ledgers, request, history, b)
  {
    if ledgers != [] {
      SameEligible(ledgers[1..], request, history, a, b);
      assert ledgers[0] in ledgers;
    }
  }

  lemma {:induction false} PickNone(view: View, pending: Pending, t: Task)
    requires t.requireGpuCount == 0
    ensures view.PickFor(t, pending) == Some([])
  {
  }

  lemma {:induction false} SamePick(a: Sample, b: Sample, history: seq<TimedSample>, pending: Pending, shown: bool,
        t: Task)
    requires Realises(a, b, pending, shown) && (shown || !TakesWhole(t))
    ensures View(b, history).PickFor(t, NO_PENDING) == View(a, history).PickFor(t, pending)
  {
    if t.requireGpuCount == 0 {
      PickNone(View(a, history), pending, t);
      PickNone(View(b, history), NO_PENDING, t);
    } else {
      var la, lb := Ledgers(a, history, pending), Ledgers(b, history, NO_PENDING);
      forall i | 0 <= i < |la|
        ensures la[i] == lb[i] && (Fits(la[i], RequestOf(t), history, a) <==> Fits(la[i], RequestOf(t), history, b))
      {
        SameFit(a, b, history, pending, shown, RequestOf(t), i);
      }
      assert la == lb;
      SameEligible(la, RequestOf(t), history, a, b);
    }
  }

  // ---------------------------------------------------------------------------
  // Making one decision real
  // ---------------------------------------------------------------------------

  lemma {:induction false} AddSharedOnce(m: map<int, real>, gpus: seq<int>, mb: real, g: int)
    requires DistinctInts(gpus)
    ensures MapGet(AddShared(m, gpus, mb), g) == MapGet(m, g) + (if g in gpus then mb else 0.0)
    decreases |gpus|
  {
    if gpus != [] {
      AddSharedOnce(m, Init(gpus), mb, g);
      assert gpus == Init(gpus) + [Last(gpus)];
    }
  }

  lemma {:induction false} HasOwnerSnoc(gpu: GpuSummary, x: TaskAllocation)
    ensures HasOwner(gpu.(pmeowTasks := gpu.pmeowTasks + [x])) <==> HasOwner(gpu) || x.exclusiveActive
  {
    var next := gpu.(pmeowTasks := gpu.pmeowTasks + [x]);
    if HasOwner(gpu) {
      var k :| 0 <= k < |gpu.pmeowTasks| && gpu.pmeowTasks[k].exclusiveActive;
      assert next.pmeowTasks[k].exclusiveActive;
    }
    assert next.pmeowTasks[|gpu.pmeowTasks|] == x;
  }

  lemma {:induction false} MaterialisedStep(a: GpuSummary, b: GpuSummary, pending: Pending, t: Task, gpus: seq<int>)
    requires RealisesAt(a, b, pending) && Queueable(t) && DistinctInts(gpus)
    ensures RealisesAt(a, WithTask(b, t, gpus), Reserving(pending, t, gpus))
    ensures Shown(a, b) && (gpus == [] || RequestOf(t) != SharedMb(0)) ==> Shown(a, WithTask(b, t, gpus))
  {
    var g := a.gpuIndex;
    if t.vramMode.Shared? {
      AddSharedOnce(pending.shared, gpus, t.requestedVramMb.GetOr(t.requireVramMb) as real, g);
    }
    if g in gpus {
      var x := AllocationOf(QueueSpec.AsReserved(t, gpus, None, 0.0), g, 0.0, None);
      InitSnoc(b.pmeowTasks, x);
      HasOwnerSnoc(b, x);
    }
  }

  lemma {:induction false} PickedDistinct(view: View, t: Task, pending: Pending)
    requires DistinctGpus(view.current) && view.PickFor(t, pending).Some?
    ensures DistinctInts(view.PickFor(t, pending).value)
  {
    PickCorrect(view.LedgersWith(pending), RequestOf(t), t.requireGpuCount, view.history, view.current);
  }

  /** The summary and ledger behind each picked GPU. */
  ghost predicate PickedAt(view: View, p: Pending, t: Task, gpus: seq<int>, g: int, i: int) {
    0 <= i < |view.current| && view.current[i].gpuIndex == g
    && Fits(LedgerOf(view.current[i], Flat(view.history) + view.current, p), RequestOf(t), view.history, view.current)
  }

  lemma {:induction false} PickedFits(view: View, p: Pending, t: Task, gpus: seq<int>, g: int) returns (i: nat)
    requires DistinctGpus(view.current) && view.PickFor(t, p) == Some(gpus) && g in gpus
    ensures PickedAt(view, p, t, gpus, g, i)
  {
    var ledgers := view.LedgersWith(p);
    PickCorrect(ledgers, RequestOf(t), t.requireGpuCount, view.history, view.current);
    var chosen := Chosen(ledgers, RequestOf(t), t.requireGpuCount, view.history, view.current);
    var j :| 0 <= j < |gpus| && gpus[j] == g;
    assert chosen[j] in chosen;
    i :| 0 <= i < |ledgers| && ledgers[i] == chosen[j];
  }

  lemma {:induction false} WholeGpuIsBare(view: View, p: Pending, i: nat)
    requires DistinctGpus(view.current) && i < |view.current|
    requires Fits(LedgerOf(view.current[i], Flat(view.history) + view.current, p), WholeGpu, view.history, view.current)
    ensures var gpu := view.current[i];
      && gpu.pmeowTasks == [] && !HasOwner(gpu) && gpu.gpuIndex !in p.exclusive && MapGet(p.shared, gpu.gpuIndex) <= 0.0
  {
    FirstForIndex(view.current, i);
  }

  /** Does `Shown` survive when `t` is decided? */
  predicate StaysShown(shown: bool, t: Task) {
    shown && !TakesNothing(t)
  }

  lemma {:induction false} RealisedStep(a: Sample, b: Sample, history: seq<TimedSample>, batch: Batch, shown: bool,
        t: Task)
    requires Realises(a, b, batch.pending, shown) && Queueable(t)
    ensures var e := Evaluate(t, View(a, history), batch);
      e.canRun ==>
        Realises(a, Materialised(b, t, e.gpuIds), After(t, e, batch).pending, StaysShown(shown, t))
  {
    var view := View(a, history);
    var e := Evaluate(t, view, batch);
    if e.canRun {
      PickedDistinct(view, t, batch.pending);
      if t.requireGpuCount == 0 { PickNone(view, batch.pending, t); }
      var b' := Materialised(b, t, e.gpuIds);
      forall i | 0 <= i < |a|
        ensures RealisesAt(a[i], b'[i], After(t, e, batch).pending)
        ensures StaysShown(shown, t) ==> Shown(a[i], b'[i])
      {
        assert RealisesAt(a[i], b[i], batch.pending);
        assert shown ==> Shown(a[i], b[i]);
        MaterialisedStep(a[i], b[i], batch.pending, t, e.gpuIds);
      }
    }
  }

  lemma {:induction false} OrderTail(tasks: seq<Task>)
    requires tasks != [] && NothingBeforeWhole(tasks)
    ensures NothingBeforeWhole(tasks[1..])
    ensures TakesNothing(tasks[0]) ==> NoneWhole(tasks[1..])
  {
    forall i, j | 0 <= i < j < |tasks[1..]|
      ensures NotBehind(tasks[1..], i, j)
    {
      assert NotBehind(tasks, i + 1, j + 1);
    }
    if TakesNothing(tasks[0]) {
      forall j | 0 <= j < |tasks[1..]|
        ensures !TakesWhole(tasks[1..][j])
      {
        assert NotBehind(tasks, 0, j + 1);
      }
    }
  }

  lemma {:induction false} ScheduleStep(tasks: seq<Task>, view: View, batch: Batch)
    requires tasks != []
    ensures var e := Evaluate(tasks[0], view, batch);
      Decisions(Schedule(tasks, view, batch)) ==
        (if e.canRun then [Decision(tasks[0].id, e.gpuIds)] else [])
        + Decisions(Schedule(tasks[1..], view, After(tasks[0], e, batch)))
  {
    var e := Evaluate(tasks[0], view, batch);
    var rest := Schedule(tasks[1..], view, After(tasks[0], e, batch));
    assert Schedule(tasks, view, batch) == [e] + rest;
    assert ([e] + rest)[1..] == rest;
  }

  lemma {:induction false} BatchFollowsOneByOne(tasks: seq<Task>, a: Sample, b: Sample, history: seq<TimedSample>,
        batch: Batch, shown: bool)
    requires Realises(a, b, batch.pending, shown) && forall t :: t in tasks ==> Queueable(t)
    requires NothingBeforeWhole(tasks) && (shown || NoneWhole(tasks))
    ensures Decisions(Schedule(tasks, View(a, history), batch)) == OneByOne(tasks, View(b, history))
    decreases |tasks|
  {
    if tasks != [] {
      var t, view := tasks[0], View(a, history);
      var e := Evaluate(t, view, batch);
      assert t in tasks;
      OrderTail(tasks);
      SamePick(a, b, history, batch.pending, shown, t);
      ScheduleStep(tasks, view, batch);
      if e.canRun {
        RealisedStep(a, b, history, batch, shown, t);
        var b', after := Materialised(b, t, e.gpuIds), After(t, e, batch);
        BatchFollowsOneByOne(tasks[1..], a, b', history, after, StaysShown(shown, t));
      } else {
        BatchFollowsOneByOne(tasks[1..], a, b, history, batch, shown);
      }
    }
  }

  /** One batch decides on the view exactly what scheduling the tasks singly decides. */
  ghost predicate Agrees(tasks: seq<Task>, view: View) {
    Decisions(Schedule(tasks, view, EMPTY_BATCH)) == OneByOne(tasks, view)
  }

  lemma {:induction false} RealisesItself(current: Sample)
    requires DistinctGpus(current)
    ensures Realises(current, current, NO_PENDING, true)
  {
    forall i | 0 <= i < |current|
      ensures RealisesAt(current[i], current[i], NO_PENDING)
    {
    }
  }

  /** Unless an exclusive task stands behind a shared one that reserves nothing, one batch decides exactly what
      scheduling the tasks singly decides, on every view and whatever the numbers of GPUs asked for. */
  lemma {:induction false} BatchEqualsOneByOne(tasks: seq<Task>, view: View)
    requires DistinctGpus(view.current) && forall t :: t in tasks ==> Queueable(t)
    requires NothingBeforeWhole(tasks)
    ensures Agrees(tasks, view)
  {
    RealisesItself(view.current);
    BatchFollowsOneByOne(tasks, view.current, view.current, view.history, EMPTY_BATCH, true);
  }

  // ---------------------------------------------------------------------------
  // A zero reservation breaks it
  // ---------------------------------------------------------------------------

  /** Nothing runs on the card and it shows no load. */
  predicate IdleGpu(gpu: GpuSummary) {
    && gpu.pmeowTasks == [] && gpu.userProcesses == [] && gpu.unknownProcesses == []
    && gpu.utilization < IDLE_UTILIZATION_THRESHOLD
    && UsedPercent(gpu.usedMb, gpu.totalMb) < IDLE_VRAM_UTILIZATION_THRESHOLD
  }

  ghost predicate OnlyShows(history: seq<TimedSample>, gpu: GpuSummary) {
    forall i :: 0 <= i < |history| ==> history[i].sample == [gpu]
  }

  lemma {:induction false} FlatShows(history: seq<TimedSample>, gpu: GpuSummary)
    requires OnlyShows(history, gpu)
    ensures forall i :: 0 <= i < |Flat(history)| ==> Flat(history)[i] == gpu
    decreases |history|
  {
    if history != [] {
      FlatShows(Init(history), gpu);
    }
  }

  lemma {:induction false} PickSingle(l: Ledger, request: Request, history: seq<TimedSample>, current: Sample)
    requires Fits(l, request, history, current)
    ensures Pick([l], request, 1, history, current) == Some([l.gpuIndex])
  {
    assert Eligible([l], request, history, current) == [l];
    assert [l][1..] == [];
    assert Sorting.StableSort([l], MoreFree) == [l];
    assert GpuIds(SliceTo([l], 1)) == [l.gpuIndex];
  }

  lemma {:induction false} PickOnIdleGpu(t: Task, gpu: GpuSummary, view: View, pending: Pending)
    requires view.current == [gpu] && OnlyShows(view.history, gpu) && IdleGpu(gpu)
    requires MapGet(pending.shared, gpu.gpuIndex) == 0.0 && pending.exclusive == {}
    requires t.requireGpuCount == 1 && RequestOf(t) in {WholeGpu, SharedMb(0)}
    ensures view.PickFor(t, pending) == Some([gpu.gpuIndex])
  {
    var seen := Flat(view.history) + view.current;
    FlatShows(view.history, gpu);
    NoUnmanagedPeak(seen, gpu.gpuIndex);
    var l := LedgerOf(gpu, seen, pending);
    assert view.LedgersWith(pending) == [l];
    assert FirstFor(view.current, gpu.gpuIndex) == Some(gpu);
    assert UnmanagedMb(gpu) == 0.0;
    PickSingle(l, RequestOf(t), view.history, view.current);
  }

  lemma {:induction false} NoPickOnTakenGpu(t: Task, gpu: GpuSummary, view: View)
    requires t.vramMode.ExclusiveAuto? && t.requireGpuCount == 1
    requires view.current == [gpu] && gpu.pmeowTasks != []
    ensures view.PickFor(t, NO_PENDING).None?
  {
    var ledgers := view.LedgersWith(NO_PENDING);
    assert FirstFor(view.current, gpu.gpuIndex) == Some(gpu);
    assert !Fits(ledgers[0], RequestOf(t), view.history, view.current);
    assert ledgers[1..] == [];
  }

  lemma {:induction false} NothingReserved(a: Task, g: int, pending: Pending)
    requires RequestOf(a) == SharedMb(0) && pending == NO_PENDING
    ensures MapGet(Reserving(pending, a, [g]).shared, g) == 0.0 && Reserving(pending, a, [g]).exclusive == {}
  {
    assert Init([g]) == [] && Last([g]) == g;
    assert AddShared(pending.shared, [], 0.0) == pending.shared;
  }

  lemma {:induction false} BothInOneBatch(a: Task, b: Task, gpu: GpuSummary, view: View, batch: Batch)
    requires view.current == [gpu] && OnlyShows(view.history, gpu) && IdleGpu(gpu) && batch == EMPTY_BATCH
    requires RequestOf(a) == SharedMb(0) && a.requireGpuCount == 1
    requires RequestOf(b) == WholeGpu && b.requireGpuCount == 1
    ensures Decisions(Schedule([a, b], view, batch)) == [Decision(a.id, [gpu.gpuIndex]), Decision(b.id, [gpu.gpuIndex])]
  {
    var g := gpu.gpuIndex;
    PickOnIdleGpu(a, gpu, view, batch.pending);
    var e := Evaluate(a, view, batch);
    var next := After(a, e, batch);
    NothingReserved(a, g, batch.pending);
    PickOnIdleGpu(b, gpu, view, next.pending);
    var f := Evaluate(b, view, next);
    assert [a, b][1..] == [b] && [b][1..] == [];
    assert Schedule([b], view, next) == [f];
    assert Schedule([a, b], view, batch) == [e] + [f];
    assert [e, f][1..] == [f] && [f][1..] == [];
    assert Decisions([f]) == [Decision(b.id, [g])];
  }

  lemma {:induction false} OnlyFirstOneByOne(a: Task, b: Task, gpu: GpuSummary, view: View)
    requires view.current == [gpu] && OnlyShows(view.history, gpu) && IdleGpu(gpu)
    requires RequestOf(a) == SharedMb(0) && a.requireGpuCount == 1
    requires RequestOf(b) == WholeGpu && b.requireGpuCount == 1
    ensures OneByOne([a, b], view) == [Decision(a.id, [gpu.gpuIndex])]
  {
    var g := gpu.gpuIndex;
    PickOnIdleGpu(a, gpu, view, NO_PENDING);
    var taken := WithTask(gpu, a, [g]);
    var next := view.(current := Materialised(view.current, a, [g]));
    assert next.current == [taken];
    NoPickOnTakenGpu(b, taken, next);
    assert [a, b][1..] == [b] && [b][1..] == [];
    assert OneByOne([b], next) == [];
  }

  /** On every idle card: behind a shared task that reserves nothing, an exclusive task takes the same GPU in the same
      batch, but not when the two are scheduled one at a time. */
  lemma {:induction false} ZeroReservationWitness(a: Task, b: Task, gpu: GpuSummary, history: seq<TimedSample>)
    requires IdleGpu(gpu) && OnlyShows(history, gpu)
    requires RequestOf(a) == SharedMb(0) && a.requireGpuCount == 1
    requires RequestOf(b) == WholeGpu && b.requireGpuCount == 1
    ensures Decisions(Schedule([a, b], View([gpu], history), EMPTY_BATCH))
         == [Decision(a.id, [gpu.gpuIndex]), Decision(b.id, [gpu.gpuIndex])]
    ensures OneByOne([a, b], View([gpu], history)) == [Decision(a.id, [gpu.gpuIndex])]
  {
    BothInOneBatch(a, b, gpu, View([gpu], history), EMPTY_BATCH);
    OnlyFirstOneByOne(a, b, gpu, View([gpu], history));
  }
}
