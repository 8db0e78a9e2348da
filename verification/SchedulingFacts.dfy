/** What a batch's picks and diagnoses mean, and how the submit-time check relates to them. */
module SchedulingFacts {
  import opened Basics
  import opened Models
  import opened Attribution
  import opened Scheduling
  import History
  import Sorting

  // ---------------------------------------------------------------------------
  // The unmanaged peak is a maximum
  // ---------------------------------------------------------------------------

  ghost predicate Below(gpu: GpuSummary, idx: int, bound: real) {
    gpu.gpuIndex == idx ==> UnmanagedMb(gpu) <= bound
  }

  /** The peak bounds the unmanaged memory of every summary of the GPU, and is one of them or zero. */
  lemma {:induction false} PeakIsMaximum(seen: seq<GpuSummary>, idx: int)
    ensures forall i :: 0 <= i < |seen| ==> Below(seen[i], idx, Peak(seen, idx))
    ensures Peak(seen, idx) == 0.0
         || exists i :: 0 <= i < |seen| && seen[i].gpuIndex == idx && UnmanagedMb(seen[i]) == Peak(seen, idx)
    decreases |seen|
  {
    if seen != [] {
      PeakIsMaximum(Init(seen), idx);
      forall i | 0 <= i < |seen|
        ensures Below(seen[i], idx, Peak(seen, idx))
      {
        if i < |seen| - 1 { assert Below(Init(seen)[i], idx, Peak(Init(seen), idx)); }
      }
      if Peak(seen, idx) == Peak(Init(seen), idx) && Peak(seen, idx) != 0.0 {
        var i :| 0 <= i < |Init(seen)| && Init(seen)[i].gpuIndex == idx && UnmanagedMb(Init(seen)[i]) == Peak(Init(seen), idx);
        assert seen[i] == Init(seen)[i];
      }
    }
  }

  /** The unmanaged peak that a ledger uses is the maximum over everything ever recorded within the window, and the
      current sample, although the tracker has pruned its list. */
  lemma {:induction false} PeakOverFullLog(log: seq<TimedSample>, trackerWindow: real, now: real, window: real,
      current: Sample, idx: int)
    requires History.NonDecreasing(log) && window <= trackerWindow
    requires log != [] ==> log[|log| - 1].timestamp <= now
    ensures var seen := Flat(History.Since(log, now - window)) + current;
      var peak := Peak(Flat(History.Since(History.Recorded(log, trackerWindow), now - window)) + current, idx);
      && (forall i :: 0 <= i < |seen| ==> Below(seen[i], idx, peak))
      && (peak == 0.0 || exists i :: 0 <= i < |seen| && seen[i].gpuIndex == idx && UnmanagedMb(seen[i]) == peak)
  {
    History.WindowEqualsFullLog(log, trackerWindow, now, window);
    PeakIsMaximum(Flat(History.Since(log, now - window)) + current, idx);
  }

  lemma {:induction false} PeakMonotone(a: seq<GpuSummary>, b: seq<GpuSummary>, idx: int)
    requires forall x :: x in a ==> x in b
    ensures Peak(a, idx) <= Peak(b, idx)
  {
    PeakIsMaximum(a, idx);
    PeakIsMaximum(b, idx);
    if Peak(a, idx) != 0.0 {
      var i :| 0 <= i < |a| && a[i].gpuIndex == idx && UnmanagedMb(a[i]) == Peak(a, idx);
      assert a[i] in b;
      var j :| 0 <= j < |b| && b[j] == a[i];
      assert Below(b[j], idx, Peak(b, idx));
    }
  }

  lemma {:induction false} FlatMember(history: seq<TimedSample>, x: GpuSummary)
    ensures x in Flat(history) <==> exists i :: 0 <= i < |history| && x in history[i].sample
    decreases |history|
  {
    if history != [] {
      FlatMember(Init(history), x);
      if x in Flat(Init(history)) {
        var i :| 0 <= i < |Init(history)| && x in Init(history)[i].sample;
        assert x in history[i].sample;
      }
      if exists i :: 0 <= i < |history| && x in history[i].sample {
        var i :| 0 <= i < |history| && x in history[i].sample;
        if i < |history| - 1 { assert x in Init(history)[i].sample; }
      }
    }
  }

  // ---------------------------------------------------------------------------
  // Picks
  // ---------------------------------------------------------------------------

  ghost predicate DistinctLedgers(s: seq<Ledger>) {
    forall i, j :: 0 <= i < j < |s| ==> s[i].gpuIndex != s[j].gpuIndex
  }

  lemma {:induction false} MoreFreeTotalPreorder()
    ensures Sorting.TotalPreorder(MoreFree)
  {
  }

  lemma {:induction false} EligibleDistinct(ledgers: seq<Ledger>, request: Request, history: seq<TimedSample>,
        current: Sample)
    requires DistinctLedgers(ledgers)
    ensures DistinctLedgers(Eligible(ledgers, request, history, current))
  {
    if ledgers != [] {
      EligibleDistinct(ledgers[1..], request, history, current);
      var rest := Eligible(ledgers[1..], request, history, current);
      forall j | 0 <= j < |rest|
        ensures rest[j].gpuIndex != ledgers[0].gpuIndex
      {
        assert rest[j] in ledgers[1..];
        var k :| 1 <= k < |ledgers| && ledgers[k] == rest[j];
      }
    }
  }

  lemma {:induction false} SortedDistinct(s: seq<Ledger>, r: seq<Ledger>)
    requires DistinctLedgers(s) && multiset(s) == multiset(r)
    ensures DistinctLedgers(r)
  {
    Sorting.SameElements(s, r);
    Sorting.SortKeepsDistinct(s, r);
    forall i, j | 0 <= i < j < |r|
      ensures r[i].gpuIndex != r[j].gpuIndex
    {
      assert r[i] in s && r[j] in s;
      var a :| 0 <= a < |s| && s[a] == r[i];
      var b :| 0 <= b < |s| && s[b] == r[j];
      assert a != b;
    }
  }

  /** The ledgers behind a pick, in the order of the picked ids. */
  function Chosen(ledgers: seq<Ledger>, request: Request, count: int, history: seq<TimedSample>,
        current: Sample): seq<Ledger> {
    SliceTo(Sorting.StableSort(Eligible(ledgers, request, history, current), MoreFree), count)
  }

  lemma {:induction false} ChosenAreEligible(ledgers: seq<Ledger>, request: Request, count: int,
        history: seq<TimedSample>, current: Sample)
    requires DistinctLedgers(ledgers)
    ensures var chosen := Chosen(ledgers, request, count, history, current);
      && DistinctLedgers(chosen)
      && (forall l :: l in chosen ==> l in ledgers && Fits(l, request, history, current))
  {
    var eligible := Eligible(ledgers, request, history, current);
    var sorted := Sorting.StableSort(eligible, MoreFree);
    MoreFreeTotalPreorder();
    Sorting.StableSortCorrect(eligible, MoreFree);
    EligibleDistinct(ledgers, request, history, current);
    SortedDistinct(eligible, sorted);
    Sorting.SameElements(eligible, sorted);
    var chosen := Chosen(ledgers, request, count, history, current);
    assert forall i :: 0 <= i < |chosen| ==> chosen[i] == sorted[i];
    forall l | l in chosen
      ensures l in eligible
    {
      assert l in sorted;
    }
  }

  lemma {:induction false} PrefixAhead(sorted: seq<Ledger>, chosen: seq<Ledger>, l: Ledger, p: Ledger)
    requires Sorting.Sorted(sorted, MoreFree) && chosen <= sorted
    requires l in sorted && l !in chosen && p in chosen
    ensures p.effectiveFreeMb >= l.effectiveFreeMb
  {
  }

  lemma {:induction false} ChosenHaveMostFree(ledgers: seq<Ledger>, request: Request, count: int,
        history: seq<TimedSample>, current: Sample)
    ensures var chosen := Chosen(ledgers, request, count, history, current);
      forall l, p :: l in Eligible(ledgers, request, history, current) && l !in chosen && p in chosen ==>
        p.effectiveFreeMb >= l.effectiveFreeMb
  {
    var eligible := Eligible(ledgers, request, history, current);
    var sorted := Sorting.StableSort(eligible, MoreFree);
    MoreFreeTotalPreorder();
    Sorting.StableSortCorrect(eligible, MoreFree);
    Sorting.SameElements(eligible, sorted);
    var chosen := Chosen(ledgers, request, count, history, current);
    forall l, p | l in eligible && l !in chosen && p in chosen
      ensures p.effectiveFreeMb >= l.effectiveFreeMb
    {
      PrefixAhead(sorted, chosen, l, p);
    }
  }

  /** A pick exists exactly when enough GPUs are eligible. The picked GPUs are distinct and eligible, are as many
      as asked for, and no eligible GPU that was left out has more free memory than a picked one. */
  lemma {:induction false} PickCorrect(ledgers: seq<Ledger>, request: Request, count: int, history: seq<TimedSample>,
        current: Sample)
    requires DistinctLedgers(ledgers)
    ensures var eligible := Eligible(ledgers, request, history, current);
      var picked := Pick(ledgers, request, count, history, current);
      var chosen := Chosen(ledgers, request, count, history, current);
      && (picked.Some? <==> |eligible| >= count)
      && DistinctLedgers(chosen)
      && (forall l :: l in chosen ==> l in ledgers && Fits(l, request, history, current))
      && (forall l, p :: l in eligible && l !in chosen && p in chosen ==> p.effectiveFreeMb >= l.effectiveFreeMb)
      && (picked.Some? ==> picked.value == GpuIds(chosen) && (count >= 0 ==> |picked.value| == count))
  {
    ChosenAreEligible(ledgers, request, count, history, current);
    ChosenHaveMostFree(ledgers, request, count, history, current);
    MoreFreeTotalPreorder();
    Sorting.StableSortCorrect(Eligible(ledgers, request, history, current), MoreFree);
  }

  // ---------------------------------------------------------------------------
  // Counting the eligible GPUs
  // ---------------------------------------------------------------------------

  ghost predicate DistinctInts(s: seq<int>) {
    forall i, j :: 0 <= i < j < |s| ==> s[i] != s[j]
  }

  lemma {:induction false} DistinctCount(s: seq<int>)
    requires DistinctInts(s)
    ensures |set x | x in s| == |s|
    decreases |s|
  {
    if s != [] {
      DistinctCount(Init(s));
      assert s == Init(s) + [Last(s)];
      assert (set x | x in s) == (set x | x in Init(s)) + {Last(s)};
    }
  }

  /** The GPUs that fit are counted by the set of their indices. */
  lemma {:induction false} EligibleCounted(ledgers: seq<Ledger>, request: Request, history: seq<TimedSample>,
        current: Sample, free: set<int>)
    requires DistinctLedgers(ledgers)
    requires forall l :: l in ledgers ==> (Fits(l, request, history, current) <==> l.gpuIndex in free)
    requires forall g :: g in free ==> exists l :: l in ledgers && l.gpuIndex == g
    ensures |Eligible(ledgers, request, history, current)| == |free|
  {
    var eligible := Eligible(ledgers, request, history, current);
    var ids := GpuIds(eligible);
    EligibleDistinct(ledgers, request, history, current);
    DistinctCount(ids);
    forall g
      ensures g in ids <==> g in free
    {
      if g in ids {
        var i :| 0 <= i < |ids| && ids[i] == g;
        assert eligible[i] in eligible;
      }
      if g in free {
        var l :| l in ledgers && l.gpuIndex == g;
        assert l in eligible;
        var i :| 0 <= i < |eligible| && eligible[i] == l;
        assert ids[i] == g;
      }
    }
    assert (set g | g in ids) == free;
  }

  // ---------------------------------------------------------------------------
  // Eligibility only shrinks
  // ---------------------------------------------------------------------------

  ghost predicate NoMore(p: Pending, q: Pending) {
    (forall g :: MapGet(p.shared, g) <= MapGet(q.shared, g)) && p.exclusive <= q.exclusive
  }

  lemma {:induction false} SeenGrows(h: seq<TimedSample>, h': seq<TimedSample>, current: Sample, idx: int)
    requires forall x :: x in h ==> x in h'
    ensures Peak(Flat(h) + current, idx) <= Peak(Flat(h') + current, idx)
  {
    forall x | x in Flat(h) + current
      ensures x in Flat(h') + current
    {
      if x !in current {
        FlatMember(h, x);
        FlatMember(h', x);
        var i :| 0 <= i < |h| && x in h[i].sample;
        assert h[i] in h';
        var j :| 0 <= j < |h'| && h'[j] == h[i];
        assert x in h'[j].sample;
      }
    }
    PeakMonotone(Flat(h) + current, Flat(h') + current, idx);
  }

  /** A GPU that fits under more reservations and a longer history also fits under fewer and a shorter one. */
  lemma {:induction false} FitsShrinks(gpu: GpuSummary, request: Request, current: Sample, h: seq<TimedSample>,
        h': seq<TimedSample>, p: Pending, q: Pending)
    requires NoMore(p, q) && forall x :: x in h ==> x in h'
    requires Fits(LedgerOf(gpu, Flat(h') + current, q), request, h', current)
    ensures Fits(LedgerOf(gpu, Flat(h) + current, p), request, h, current)
  {
    SeenGrows(h, h', current, gpu.gpuIndex);
    assert MapGet(p.shared, gpu.gpuIndex) <= MapGet(q.shared, gpu.gpuIndex);
    if request.WholeGpu? {
      forall i | 0 <= i < |h|
        ensures IdleIfPresent(h[i].sample, gpu.gpuIndex)
      {
        assert h[i] in h';
        var j :| 0 <= j < |h'| && h'[j] == h[i];
        assert IdleIfPresent(h'[j].sample, gpu.gpuIndex);
      }
    }
  }

  lemma {:induction false} EligibleCount(a: seq<Ledger>, b: seq<Ledger>, request: Request, h: seq<TimedSample>,
        h': seq<TimedSample>, current: Sample)
    requires |a| == |b|
    requires forall i :: 0 <= i < |a| && Fits(b[i], request, h', current) ==> Fits(a[i], request, h, current)
    ensures |Eligible(b, request, h', current)| <= |Eligible(a, request, h, current)|
  {
    if a != [] {
      forall i | 0 <= i < |a[1..]| && Fits(b[1..][i], request, h', current)
        ensures Fits(a[1..][i], request, h, current)
      {
        assert b[i + 1] == b[1..][i];
      }
      EligibleCount(a[1..], b[1..], request, h, h', current);
    }
  }

  lemma {:induction false} EligibilityShrinks(t: Task, current: Sample, h: seq<TimedSample>, h': seq<TimedSample>,
        p: Pending, q: Pending)
    requires NoMore(p, q) && forall x :: x in h ==> x in h'
    ensures |View(current, h').EligibleFor(t, q)| <= |View(current, h).EligibleFor(t, p)|
  {
    var a, b := Ledgers(current, h, p), Ledgers(current, h', q);
    forall i | 0 <= i < |a| && Fits(b[i], RequestOf(t), h', current)
      ensures Fits(a[i], RequestOf(t), h, current)
    {
      FitsShrinks(current[i], RequestOf(t), current, h, h', p, q);
    }
    EligibleCount(a, b, RequestOf(t), h, h', current);
  }

  // ---------------------------------------------------------------------------
  // Diagnosis
  // ---------------------------------------------------------------------------

  /** What every batch state met while scheduling satisfies, when no reservation is negative. */
  ghost predicate BatchOk(b: Batch) {
    NoMore(NO_PENDING, b.pending) && (b.prior == [] ==> b.pending == NO_PENDING)
  }

  ghost predicate NonNegative(t: Task) {
    t.vramMode.Shared? ==> t.requestedVramMb.GetOr(t.requireVramMb) >= 0
  }

  lemma {:induction false} AddSharedGrows(m: map<int, real>, gpus: seq<int>, mb: real, g: int)
    requires mb >= 0.0
    ensures MapGet(AddShared(m, gpus, mb), g) >= MapGet(m, g)
    decreases |gpus|
  {
    if gpus != [] {
      AddSharedGrows(m, Init(gpus), mb, g);
    }
  }

  lemma {:induction false} ReservingGrows(t: Task, p: Pending, gpus: seq<int>)
    requires NonNegative(t)
    ensures NoMore(p, Reserving(p, t, gpus))
  {
    if t.vramMode.Shared? {
      forall g
        ensures MapGet(p.shared, g) <= MapGet(Reserving(p, t, gpus).shared, g)
      {
        AddSharedGrows(p.shared, gpus, t.requestedVramMb.GetOr(t.requireVramMb) as real, g);
      }
    }
  }

  lemma {:induction false} AfterOk(t: Task, e: Evaluation, b: Batch)
    requires NonNegative(t) && BatchOk(b)
    ensures BatchOk(After(t, e, b))
  {
    if e.canRun {
      ReservingGrows(t, b.pending, e.gpuIds);
      var q := Reserving(b.pending, t, e.gpuIds);
      forall g
        ensures 0.0 <= MapGet(q.shared, g)
      {
        assert MapGet(NO_PENDING.shared, g) <= MapGet(b.pending.shared, g) <= MapGet(q.shared, g);
      }
    }
  }

  /** The diagnosis of one task, exactly: it runs if and only if enough GPUs are eligible now; if not, it is blocked
      by higher-priority tasks if and only if enough would be eligible without this batch's reservations, and
      otherwise there are too few GPUs. The fourth reason never occurs, and the source's extra check that some
      task was scheduled before is implied. */
  lemma {:induction false} DiagnosisExact(t: Task, view: View, b: Batch)
    requires BatchOk(b)
    ensures var e := Evaluate(t, view, b);
      var now, alone := |view.EligibleFor(t, b.pending)|, |view.EligibleFor(t, NO_PENDING)|;
      && (e.canRun <==> now >= t.requireGpuCount)
      && (e.reason == Scheduled <==> e.canRun)
      && (e.reason == BlockedByHigherPriority <==> now < t.requireGpuCount <= alone)
      && (e.reason == InsufficientGpuCount <==> alone < t.requireGpuCount)
      && e.reason != SustainedWindowNotSatisfied
      && (e.reason == BlockedByHigherPriority ==> b.prior != [])
  {
    EligibilityShrinks(t, view.current, view.history, view.history, NO_PENDING, b.pending);
  }

  ghost predicate Diagnosed(e: Evaluation, t: Task, view: View, b: Batch) {
    e == Evaluate(t, view, b) && BatchOk(b)
  }

  /** In any batch, each evaluation is the evaluation of its own task in a batch state to which the exact
      diagnosis applies. */
  lemma {:induction false} EveryEvaluationDiagnosed(tasks: seq<Task>, view: View, b: Batch, n: nat)
    requires BatchOk(b) && n < |tasks| && forall t :: t in tasks ==> NonNegative(t)
    ensures exists c :: Diagnosed(Schedule(tasks, view, b)[n], tasks[n], view, c)
    decreases n
  {
    var e := Evaluate(tasks[0], view, b);
    if n == 0 {
      assert Diagnosed(Schedule(tasks, view, b)[0], tasks[0], view, b);
    } else {
      assert tasks[0] in tasks;
      AfterOk(tasks[0], e, b);
      EveryEvaluationDiagnosed(tasks[1..], view, After(tasks[0], e, b), n - 1);
      var c :| Diagnosed(Schedule(tasks[1..], view, After(tasks[0], e, b))[n - 1], tasks[n], view, c);
      assert Diagnosed(Schedule(tasks, view, b)[n], tasks[n], view, c);
    }
  }

  // ---------------------------------------------------------------------------
  // Submit check
  // ---------------------------------------------------------------------------

  /** `a` and `b` describe the same cards. */
  ghost predicate SameTotals(a: Sample, b: Sample) {
    |a| == |b| && forall i :: 0 <= i < |a| ==> a[i].totalMb == b[i].totalMb
  }

  lemma {:induction false} CapableBoundsEligible(perGpu: Sample, current: Sample, seen: seq<GpuSummary>,
        history: seq<TimedSample>, all: Sample, pending: Pending, mb: int)
    requires SameTotals(perGpu, current) && mb > 0 && forall g :: MapGet(pending.shared, g) >= 0.0
    ensures |Eligible(seq(|current|, i requires 0 <= i < |current| => LedgerOf(current[i], seen, pending)), SharedMb(mb), history, all)|
         <= Capable(perGpu, mb)
  {
    var ledgers := seq(|current|, i requires 0 <= i < |current| => LedgerOf(current[i], seen, pending));
    if current != [] {
      assert ledgers[1..] == seq(|current[1..]|, i requires 0 <= i < |current[1..]| => LedgerOf(current[1..][i], seen, pending));
      CapableBoundsEligible(perGpu[1..], current[1..], seen, history, all, pending, mb);
      assert MapGet(pending.shared, current[0].gpuIndex) >= 0.0;
      assert Fits(ledgers[0], SharedMb(mb), history, all) ==> perGpu[0].totalMb * CAPACITY_FACTOR >= mb as real;
    }
  }

  lemma {:induction false} SameLedgers(current: Sample, history: seq<TimedSample>, pending: Pending)
    ensures Ledgers(current, history, pending)
         == seq(|current|, i requires 0 <= i < |current| => LedgerOf(current[i], Flat(history) + current, pending))
  {
  }

  /** A shared request that the submit check refuses is never admitted on these cards, whatever runs on them,
      whatever the history holds and whatever was reserved in the batch. */
  lemma {:induction false} RefusedNeverAdmitted(perGpu: Sample, count: int, mb: int, view: View, pending: Pending)
    requires !RequestPossible(perGpu, count, mb, Shared)
    requires SameTotals(perGpu, view.current) && forall g :: MapGet(pending.shared, g) >= 0.0
    ensures Pick(view.LedgersWith(pending), SharedMb(mb), count, view.history, view.current).None?
  {
    if count <= |perGpu| {
      SameLedgers(view.current, view.history, pending);
      CapableBoundsEligible(perGpu, view.current, Flat(view.history) + view.current, view.history, view.current, pending, mb);
    }
  }

  /** A card with nothing running on it. */
  function EmptyCard(g: int, totalMb: real): GpuSummary {
    GpuSummary(g, totalMb, 0.0, [], [], [], 0.0)
  }

  /** The cards with nothing running on them. */
  function EmptyNode(perGpu: Sample): (r: Sample)
    ensures SameTotals(perGpu, r)
    ensures forall i :: 0 <= i < |r| ==> r[i] == EmptyCard(perGpu[i].gpuIndex, perGpu[i].totalMb)
  {
    seq(|perGpu|, i requires 0 <= i < |perGpu| => EmptyCard(perGpu[i].gpuIndex, perGpu[i].totalMb))
  }

  lemma {:induction false} NoUnmanagedPeak(seen: seq<GpuSummary>, idx: int)
    requires forall i :: 0 <= i < |seen| ==> seen[i].userProcesses == [] && seen[i].unknownProcesses == []
    ensures Peak(seen, idx) == 0.0
    decreases |seen|
  {
    if seen != [] {
      NoUnmanagedPeak(Init(seen), idx);
    }
  }

  lemma {:induction false} CapableFit(perGpu: Sample, ledgers: seq<Ledger>, mb: int, current: Sample)
    requires |perGpu| == |ledgers|
    requires forall i :: 0 <= i < |ledgers| && perGpu[i].totalMb * CAPACITY_FACTOR >= mb as real ==> EligibleShared(ledgers[i], mb)
    ensures |Eligible(ledgers, SharedMb(mb), [], current)| >= Capable(perGpu, mb)
  {
    if ledgers != [] {
      forall i | 0 <= i < |ledgers[1..]| && perGpu[1..][i].totalMb * CAPACITY_FACTOR >= mb as real
        ensures EligibleShared(ledgers[1..][i], mb)
      {
        assert EligibleShared(ledgers[i + 1], mb);
      }
      CapableFit(perGpu[1..], ledgers[1..], mb, current);
    }
  }

  lemma {:induction false} AllFit(ledgers: seq<Ledger>, mb: int, current: Sample)
    requires forall i :: 0 <= i < |ledgers| ==> EligibleShared(ledgers[i], mb)
    ensures |Eligible(ledgers, SharedMb(mb), [], current)| == |ledgers|
  {
    if ledgers != [] {
      AllFit(ledgers[1..], mb, current);
    }
  }

  lemma {:induction false} EmptyLedgerFits(gpu: GpuSummary, seen: seq<GpuSummary>, mb: int)
    requires gpu.pmeowTasks == [] && Peak(seen, gpu.gpuIndex) == 0.0
    requires gpu.totalMb * CAPACITY_FACTOR >= mb as real || mb <= 0
    ensures EligibleShared(LedgerOf(gpu, seen, NO_PENDING), mb)
  {
  }

  lemma {:induction false} EmptyPeak(perGpu: Sample, idx: int)
    ensures Peak(Flat([]) + EmptyNode(perGpu), idx) == 0.0
  {
    assert Flat([]) + EmptyNode(perGpu) == EmptyNode(perGpu);
    NoUnmanagedPeak(EmptyNode(perGpu), idx);
  }

  lemma {:induction false} EmptyLedgersFit(perGpu: Sample, ledgers: seq<Ledger>, mb: int)
    requires ledgers == Ledgers(EmptyNode(perGpu), [], NO_PENDING)
    ensures forall i :: 0 <= i < |ledgers| && (perGpu[i].totalMb * CAPACITY_FACTOR >= mb as real || mb <= 0) ==>
      EligibleShared(ledgers[i], mb)
  {
    var current := EmptyNode(perGpu);
    forall i | 0 <= i < |ledgers| && (perGpu[i].totalMb * CAPACITY_FACTOR >= mb as real || mb <= 0)
      ensures EligibleShared(ledgers[i], mb)
    {
      EmptyPeak(perGpu, current[i].gpuIndex);
      EmptyLedgerFits(current[i], Flat([]) + current, mb);
    }
  }

  /** A shared request that the submit check accepts is admitted on the same cards when they are empty. */
  lemma {:induction false} AcceptedAdmittedWhenEmpty(perGpu: Sample, count: int, mb: int)
    requires RequestPossible(perGpu, count, mb, Shared)
    ensures var view := View(EmptyNode(perGpu), []);
      Pick(view.LedgersWith(NO_PENDING), SharedMb(mb), count, view.history, view.current).Some?
  {
    var current := EmptyNode(perGpu);
    var ledgers := Ledgers(current, [], NO_PENDING);
    EmptyLedgersFit(perGpu, ledgers, mb);
    if mb > 0 {
      CapableFit(perGpu, ledgers, mb, current);
    } else {
      AllFit(ledgers, mb, current);
    }
  }

  /** The submit check is exact for shared requests: it accepts if and only if some state of the node with the same
      cards admits the request. */
  lemma {:induction false} SubmitCheckExact(perGpu: Sample, count: int, mb: int)
    ensures RequestPossible(perGpu, count, mb, Shared) <==>
      exists view: View, pending: Pending ::
        && SameTotals(perGpu, view.current) && NoMore(NO_PENDING, pending)
        && Pick(view.LedgersWith(pending), SharedMb(mb), count, view.history, view.current).Some?
  {
    if RequestPossible(perGpu, count, mb, Shared) {
      AcceptedAdmittedWhenEmpty(perGpu, count, mb);
      var view := View(EmptyNode(perGpu), []);
      assert SameTotals(perGpu, view.current) && NoMore(NO_PENDING, NO_PENDING);
      assert Pick(view.LedgersWith(NO_PENDING), SharedMb(mb), count, view.history, view.current).Some?;
    } else {
      forall view: View, pending: Pending | SameTotals(perGpu, view.current) && NoMore(NO_PENDING, pending)
        ensures Pick(view.LedgersWith(pending), SharedMb(mb), count, view.history, view.current).None?
      {
        forall g
          ensures MapGet(pending.shared, g) >= 0.0
        {
          assert MapGet(NO_PENDING.shared, g) <= MapGet(pending.shared, g);
        }
        RefusedNeverAdmitted(perGpu, count, mb, view, pending);
      }
    }
  }
}
