/** The safety invariant of the live tasks and the three ways in which it changes hands: tasks leave or keep their
    claims, an exclusive hold is reclaimed, and a batch admits new tasks. */
module Safety {
  import opened Basics
  import opened Models
  import opened Attribution
  import opened AttributionFacts
  import opened Loads
  import opened Scheduling
  import Reclaim

  /** The fixed total memory of each card. */
  type Totals = map<int, real>

  function Capacity(totals: Totals, g: int): real {
    MapGet(totals, g) * CAPACITY_FACTOR
  }

  /** What may be declared on the card: its capacity, or more where a reclaim can leave more. */
  function Limit(totals: Totals, g: int): real {
    MaxReal(Capacity(totals, g), Reclaim.LargestReclaim(MapGet(totals, g)) as real)
  }

  /** The batch that admitted a task, and the task's place in it. */
  datatype Admission = Admission(batch: nat, pos: nat)

  ghost predicate ReclaimOk(t: Task, totals: Totals, g: int) {
    ReclaimedOn(t, g).Some? ==> ReclaimedOn(t, g).value >= 0 && ReclaimedOn(t, g).value as real <= Limit(totals, g)
  }

  ghost predicate PeaksPositive(t: Task) {
    forall g :: g in t.autoPeakMb.GetOr(map[]) ==> t.autoPeakMb.GetOr(map[])[g] > 0
  }

  /** What holds of one live task's claim. */
  ghost predicate ClaimOk(t: Task, totals: Totals) {
    && t.assignedGpus.Some? && t.declaredVramPerGpu.Some?
    && (t.vramMode.Shared? ==> t.autoReclaimedMb.None? && t.declaredVramPerGpu.value >= 0)
    && (t.vramMode.Shared? ==> t.declaredVramPerGpu.value == t.requestedVramMb.GetOr(t.requireVramMb))
    && (t.vramMode.ExclusiveAuto? ==> t.declaredVramPerGpu.value == 0)
    && (t.autoReclaimedMb.Some? ==> t.autoReclaimDone)
    && PeaksPositive(t)
    && forall g :: ReclaimOk(t, totals, g)
  }

  ghost predicate LoadFits(live: map<TaskId, Task>, totals: Totals, g: int) {
    Load(live, g) as real <= Limit(totals, g)
  }

  /** While `a` holds GPU `g` exclusively, any other live task `b` on it is a shared task of reservation 0 that was
      admitted earlier in the very batch that admitted `a`. */
  ghost predicate Compatible(live: map<TaskId, Task>, admitted: map<TaskId, Admission>, a: TaskId, b: TaskId, g: int) {
    a in live && b in live && a in admitted && b in admitted && a != b
    && AssignedTo(live[a], g) && AssignedTo(live[b], g) && ExclusiveActive(live[a], g) ==>
      && live[b].vramMode.Shared? && Declared(live[b], g) == 0
      && admitted[b].batch == admitted[a].batch && admitted[b].pos < admitted[a].pos
  }

  ghost predicate TaskOk(live: map<TaskId, Task>, totals: Totals, admitted: map<TaskId, Admission>, k: TaskId) {
    k in live ==> live[k].id == k && ClaimOk(live[k], totals) && k in admitted
  }

  ghost predicate Safe(live: map<TaskId, Task>, totals: Totals, admitted: map<TaskId, Admission>) {
    && (forall k :: TaskOk(live, totals, admitted, k))
    && (forall g :: LoadFits(live, totals, g))
    && (forall a, b, g :: Compatible(live, admitted, a, b, g))
  }

  lemma {:induction false} ContributionNonNegative(t: Task, totals: Totals, g: int)
    requires ClaimOk(t, totals)
    ensures Declared(t, g) >= 0 && Contribution(t, g) >= 0
  {
    assert ReclaimOk(t, totals, g);
  }

  // ---------------------------------------------------------------------------
  // Leaving, or keeping the claim
  // ---------------------------------------------------------------------------

  predicate SameClaim(t: Task, u: Task) {
    && t.id == u.id && t.assignedGpus == u.assignedGpus && t.declaredVramPerGpu == u.declaredVramPerGpu
    && t.vramMode == u.vramMode && t.autoReclaimedMb == u.autoReclaimedMb && t.autoReclaimDone == u.autoReclaimDone
    && t.autoPeakMb == u.autoPeakMb && t.requestedVramMb == u.requestedVramMb && t.requireVramMb == u.requireVramMb
  }

  ghost predicate Weaker(next: map<TaskId, Task>, live: map<TaskId, Task>) {
    next.Keys <= live.Keys && forall k :: k in next ==> SameClaim(next[k], live[k])
  }

  lemma {:induction false} WeakerIsSafe(live: map<TaskId, Task>, next: map<TaskId, Task>, totals: Totals,
        admitted: map<TaskId, Admission>)
    requires Safe(live, totals, admitted) && Weaker(next, live)
    ensures Safe(next, totals, admitted)
  {
    forall k
      ensures TaskOk(next, totals, admitted, k)
    {
      assert TaskOk(live, totals, admitted, k);
      if k in next {
        forall g ensures ReclaimOk(next[k], totals, g) { assert ReclaimOk(live[k], totals, g); }
      }
    }
    forall g
      ensures LoadFits(next, totals, g)
    {
      assert LoadFits(live, totals, g);
      forall k | k in live
        ensures Contribution(live[k], g) >= 0
      {
        assert TaskOk(live, totals, admitted, k);
        ContributionNonNegative(live[k], totals, g);
      }
      LoadShrinks(live, next, g);
    }
    forall a, b, g
      ensures Compatible(next, admitted, a, b, g)
    {
      assert Compatible(live, admitted, a, b, g);
    }
  }

  // ---------------------------------------------------------------------------
  // The sample in flight
  // ---------------------------------------------------------------------------

  ghost predicate CoversBy(gpu: GpuSummary, t: Task, i: int)
    requires 0 <= i < |gpu.pmeowTasks|
  {
    && gpu.pmeowTasks[i].taskId == t.id
    && (gpu.pmeowTasks[i].exclusiveActive
        || (gpu.pmeowTasks[i].declaredMb == Declared(t, gpu.gpuIndex) && !ExclusiveActive(t, gpu.gpuIndex)))
  }

  /** The summary lists `t`: as an exclusive owner, or with its present declaration. */
  ghost predicate Covers(gpu: GpuSummary, t: Task) {
    exists i :: 0 <= i < |gpu.pmeowTasks| && CoversBy(gpu, t, i)
  }

  ghost predicate CoversTask(sample: Sample, live: map<TaskId, Task>, i: int, k: TaskId)
    requires 0 <= i < |sample|
  {
    k in live && AssignedTo(live[k], sample[i].gpuIndex) ==> Covers(sample[i], live[k])
  }

  /** The card's total is its fixed one, or zero for a GPU known only from its processes. */
  ghost predicate SummaryOk(gpu: GpuSummary, totals: Totals) {
    gpu.totalMb == 0.0 || gpu.totalMb == MapGet(totals, gpu.gpuIndex)
  }

  ghost predicate SampleOk(sample: Sample, totals: Totals) {
    DistinctGpus(sample) && forall i :: 0 <= i < |sample| ==> SummaryOk(sample[i], totals)
  }

  ghost predicate SampleCovers(sample: Sample, live: map<TaskId, Task>) {
    forall i, k :: 0 <= i < |sample| ==> CoversTask(sample, live, i, k)
  }

  lemma {:induction false} ShownIsCovered(gpu: GpuSummary, t: Task)
    requires Shows(gpu, t)
    ensures Covers(gpu, t)
  {
    var i :| 0 <= i < |gpu.pmeowTasks| && ShowsAt(gpu, t, i);
    assert CoversBy(gpu, t, i);
  }

  lemma {:induction false} WeakerIsCovered(sample: Sample, live: map<TaskId, Task>, next: map<TaskId, Task>)
    requires SampleCovers(sample, live) && Weaker(next, live)
    ensures SampleCovers(sample, next)
  {
    forall i, k | 0 <= i < |sample|
      ensures CoversTask(sample, next, i, k)
    {
      assert CoversTask(sample, live, i, k);
      if k in next && AssignedTo(next[k], sample[i].gpuIndex) {
        var j :| 0 <= j < |sample[i].pmeowTasks| && CoversBy(sample[i], live[k], j);
        assert CoversBy(sample[i], next[k], j);
      }
    }
  }

  // ---------------------------------------------------------------------------
  // Reclaim
  // ---------------------------------------------------------------------------

  /** `u` is `t`, or `t` after one cycle's update. */
  ghost predicate UpdateOf(t: Task, u: Task, sample: Sample, now: real) {
    u == t || u == Reclaim.Updated(t, sample, now)
  }

  ghost predicate Reclaims(next: map<TaskId, Task>, live: map<TaskId, Task>, sample: Sample, now: real) {
    next.Keys == live.Keys && forall k :: k in live ==> UpdateOf(live[k], next[k], sample, now)
  }

  lemma {:induction false} PeaksStayPositive(peaks: map<int, int>, gpus: seq<int>, id: TaskId, sample: Sample)
    requires forall g :: g in peaks ==> peaks[g] > 0
    ensures forall g :: g in Reclaim.ObserveAll(peaks, gpus, id, sample) ==> Reclaim.ObserveAll(peaks, gpus, id, sample)[g] > 0
    decreases |gpus|
  {
    if gpus != [] {
      PeaksStayPositive(peaks, Init(gpus), id, sample);
    }
  }

  lemma {:induction false} TotalMbOk(sample: Sample, totals: Totals, g: int)
    requires forall i :: 0 <= i < |sample| ==> SummaryOk(sample[i], totals)
    ensures Reclaim.TotalMb(sample, g) == 0.0 || Reclaim.TotalMb(sample, g) == MapGet(totals, g)
    decreases |sample|
  {
    if sample != [] {
      assert SummaryOk(Last(sample), totals);
      forall i | 0 <= i < |Init(sample)| ensures SummaryOk(Init(sample)[i], totals) { assert SummaryOk(sample[i], totals); }
      TotalMbOk(Init(sample), totals, g);
    }
  }

  lemma {:induction false} FinishedReclaimOk(t: Task, peaks: map<int, int>, sample: Sample, totals: Totals, g: int)
    requires SampleOk(sample, totals)
    requires forall h :: h in peaks ==> peaks[h] > 0
    requires t.autoReclaimedMb == Some(Reclaim.ReclaimedMap(t.assignedGpus.GetOr([]), peaks, sample))
    ensures ReclaimOk(t, totals, g)
  {
    if ReclaimedOn(t, g).Some? {
      TotalMbOk(sample, totals, g);
      var total := Reclaim.TotalMb(sample, g);
      assert Reclaim.ReclaimTo(peaks[g], total) == ReclaimedOn(t, g);
      Reclaim.ReclaimWithinLargest(peaks[g], total);
    }
  }

  lemma {:induction false} UpdatedClaimOk(t: Task, sample: Sample, now: real, totals: Totals)
    requires ClaimOk(t, totals) && SampleOk(sample, totals)
    ensures ClaimOk(Reclaim.Updated(t, sample, now), totals)
  {
    if Reclaim.Observable(t) {
      var o := Reclaim.Observed(t, sample);
      var u := Reclaim.Updated(t, sample, now);
      PeaksStayPositive(t.autoPeakMb.GetOr(map[]), t.assignedGpus.value, t.id, sample);
      assert PeaksPositive(o);
      forall g
        ensures ReclaimOk(u, totals, g)
      {
        assert ReclaimOk(t, totals, g);
        if Reclaim.WindowOver(o, now) {
          FinishedReclaimOk(u, o.autoPeakMb.value, sample, totals, g);
        }
      }
    }
  }

  /** An update leaves a claim alone, except that an exclusive hold may turn into a reservation. */
  lemma {:induction false} UpdatedClaim(t: Task, sample: Sample, now: real, totals: Totals, g: int)
    requires ClaimOk(t, totals)
    ensures var u := Reclaim.Updated(t, sample, now);
      && u.id == t.id && u.assignedGpus == t.assignedGpus && u.vramMode == t.vramMode
      && (Declared(u, g) != Declared(t, g) || (ExclusiveActive(u, g) <==> !ExclusiveActive(t, g)) ==>
            ExclusiveActive(t, g) && !ExclusiveActive(u, g))
      && (ExclusiveActive(t, g) ==> Declared(t, g) == 0)
      && (ExclusiveActive(u, g) ==> ExclusiveActive(t, g) && Declared(u, g) == 0)
  {
  }

  lemma {:induction false} ReclaimLoadFits(live: map<TaskId, Task>, next: map<TaskId, Task>, sample: Sample, now: real,
        totals: Totals,
      admitted: map<TaskId, Admission>, g: int)
    requires Safe(live, totals, admitted) && Reclaims(next, live, sample, now)
    requires forall k :: TaskOk(next, totals, admitted, k)
    ensures LoadFits(next, totals, g)
  {
    assert LoadFits(live, totals, g);
    forall k | k in live
      ensures Contribution(live[k], g) >= 0 && next[k].assignedGpus == live[k].assignedGpus
    {
      assert TaskOk(live, totals, admitted, k) && UpdateOf(live[k], next[k], sample, now);
      UpdatedClaim(live[k], sample, now, totals, g);
      ContributionNonNegative(live[k], totals, g);
    }
    if k :| k in live && Contribution(next[k], g) != Contribution(live[k], g) {
      assert TaskOk(live, totals, admitted, k) && TaskOk(next, totals, admitted, k) && UpdateOf(live[k], next[k], sample, now);
      UpdatedClaim(live[k], sample, now, totals, g);
      forall j | j in next && j != k
        ensures Contribution(next[j], g) == 0
      {
        assert TaskOk(live, totals, admitted, j) && UpdateOf(live[j], next[j], sample, now);
        assert Compatible(live, admitted, k, j, g);
        UpdatedClaim(live[j], sample, now, totals, g);
      }
      LoadOnlyOne(next, k, g);
      assert ReclaimOk(next[k], totals, g);
    } else {
      LoadShrinks(live, next, g);
    }
  }

  lemma {:induction false} ReclaimIsSafe(live: map<TaskId, Task>, next: map<TaskId, Task>, sample: Sample, now: real,
        totals: Totals,
      admitted: map<TaskId, Admission>)
    requires Safe(live, totals, admitted) && Reclaims(next, live, sample, now)
    requires SampleOk(sample, totals)
    ensures Safe(next, totals, admitted)
  {
    forall k
      ensures TaskOk(next, totals, admitted, k)
    {
      assert TaskOk(live, totals, admitted, k);
      if k in live {
        assert UpdateOf(live[k], next[k], sample, now);
        UpdatedClaim(live[k], sample, now, totals, 0);
        UpdatedClaimOk(live[k], sample, now, totals);
      }
    }
    forall g
      ensures LoadFits(next, totals, g)
    {
      ReclaimLoadFits(live, next, sample, now, totals, admitted, g);
    }
    forall a, b, g
      ensures Compatible(next, admitted, a, b, g)
    {
      assert Compatible(live, admitted, a, b, g);
      if a in live && b in live {
        assert TaskOk(live, totals, admitted, a) && UpdateOf(live[a], next[a], sample, now);
        assert TaskOk(live, totals, admitted, b) && UpdateOf(live[b], next[b], sample, now);
        UpdatedClaim(live[a], sample, now, totals, g);
        UpdatedClaim(live[b], sample, now, totals, g);
      }
    }
  }

  lemma {:induction false} ReclaimIsCovered(live: map<TaskId, Task>, next: map<TaskId, Task>, sample: Sample, now: real,
        totals: Totals,
      admitted: map<TaskId, Admission>)
    requires Safe(live, totals, admitted) && Reclaims(next, live, sample, now) && SampleCovers(sample, live)
    ensures SampleCovers(sample, next)
  {
    forall i, k | 0 <= i < |sample|
      ensures CoversTask(sample, next, i, k)
    {
      var g := sample[i].gpuIndex;
      assert CoversTask(sample, live, i, k) && TaskOk(live, totals, admitted, k);
      if k in live && AssignedTo(next[k], g) {
        assert UpdateOf(live[k], next[k], sample, now);
        UpdatedClaim(live[k], sample, now, totals, g);
        var j :| 0 <= j < |sample[i].pmeowTasks| && CoversBy(sample[i], live[k], j);
        assert CoversBy(sample[i], next[k], j);
      }
    }
  }
}
