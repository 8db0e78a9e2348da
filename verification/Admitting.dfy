/** Admitting the picks of one batch, one after the other, keeps the live tasks safe. */
module Admitting {
  import opened Basics
  import opened Models
  import opened Attribution
  import opened Loads
  import opened Scheduling
  import opened SchedulingFacts
  import opened Safety
  import opened BatchRefinement

  /** How the batch accounts for live task `k` on the summarised GPU: an exclusive one shows as an owner or is
      pending as one, and any task shows, is pending, or is a shared task of reservation 0 of this very batch. */
  ghost predicate BookedAt(gpu: GpuSummary, p: Pending, live: map<TaskId, Task>, admitted: map<TaskId, Admission>,
    batch: nat, pos: nat, k: TaskId)
  {
    k in live && k in admitted && AssignedTo(live[k], gpu.gpuIndex) ==>
      && (HasOwner(gpu) || gpu.gpuIndex in p.exclusive || !ExclusiveActive(live[k], gpu.gpuIndex))
      && (gpu.pmeowTasks != [] || gpu.gpuIndex in p.exclusive || MapGet(p.shared, gpu.gpuIndex) > 0.0
          || (live[k].vramMode.Shared? && Declared(live[k], gpu.gpuIndex) == 0
              && admitted[k].batch == batch && admitted[k].pos < pos))
  }

  ghost predicate LoadBooked(gpu: GpuSummary, p: Pending, live: map<TaskId, Task>) {
    && MapGet(p.shared, gpu.gpuIndex) >= 0.0
    && (!HasOwner(gpu) && gpu.gpuIndex !in p.exclusive ==>
          Load(live, gpu.gpuIndex) as real <= ManagedMb(gpu.pmeowTasks) as real + MapGet(p.shared, gpu.gpuIndex))
  }

  ghost predicate Booked(gpu: GpuSummary, p: Pending, live: map<TaskId, Task>, admitted: map<TaskId, Admission>,
    batch: nat, pos: nat)
  {
    LoadBooked(gpu, p, live) && forall k :: BookedAt(gpu, p, live, admitted, batch, pos, k)
  }

  ghost predicate AllBooked(sample: Sample, p: Pending, live: map<TaskId, Task>, admitted: map<TaskId, Admission>,
    batch: nat, pos: nat)
  {
    forall i :: 0 <= i < |sample| ==> Booked(sample[i], p, live, admitted, batch, pos)
  }

  /** `u` is queued task `t` once it holds `gpus`. */
  ghost predicate Holds(u: Task, t: Task, gpus: seq<int>) {
    && u.id == t.id && u.assignedGpus == Some(gpus) && u.vramMode == t.vramMode
    && u.requestedVramMb == t.requestedVramMb && u.requireVramMb == t.requireVramMb
    && u.autoReclaimedMb.None? && u.autoPeakMb.None?
    && u.declaredVramPerGpu == Some(if t.vramMode.ExclusiveAuto? then 0 else t.requestedVramMb.GetOr(t.requireVramMb))
  }

  /** On a GPU that is eligible for a positive reservation, what is declared and booked, the reservation and the
      weighted peak of the unmanaged memory fit the capacity together. */
  lemma {:induction false} SharedHasRoom(gpu: GpuSummary, seen: seq<GpuSummary>, p: Pending, mb: int, totals: Totals)
    requires EligibleShared(LedgerOf(gpu, seen, p), mb) && mb > 0
    requires SummaryOk(gpu, totals) && MapGet(p.shared, gpu.gpuIndex) >= 0.0
    ensures !HasOwner(gpu) && gpu.gpuIndex !in p.exclusive
    ensures ManagedMb(gpu.pmeowTasks) as real + MapGet(p.shared, gpu.gpuIndex) + mb as real
          + Peak(seen, gpu.gpuIndex) * UNMANAGED_MULTIPLIER <= Capacity(totals, gpu.gpuIndex)
  {
  }

  lemma {:induction false} HeldClaimOk(u: Task, t: Task, gpus: seq<int>, totals: Totals)
    requires Holds(u, t, gpus) && NonNegative(t)
    ensures ClaimOk(u, totals)
  {
  }

  lemma {:induction false} AdmitLoadFits(view: View, live: map<TaskId, Task>, t: Task, u: Task, gpus: seq<int>,
        p: Pending, totals: Totals,
      admitted: map<TaskId, Admission>, batch: nat, pos: nat, g: int)
    requires SampleOk(view.current, totals) && LoadFits(live, totals, g)
    requires AllBooked(view.current, p, live, admitted, batch, pos)
    requires t.id !in live && Holds(u, t, gpus) && NonNegative(t) && view.PickFor(t, p) == Some(gpus)
    ensures LoadFits(live[t.id := u], totals, g)
  {
    LoadAdd(live, t.id, u, g);
    if g in gpus && t.vramMode.Shared? && u.declaredVramPerGpu.value > 0 {
      var i := PickedFits(view, p, t, gpus, g);
      assert Booked(view.current[i], p, live, admitted, batch, pos);
      assert SummaryOk(view.current[i], totals);
      SharedHasRoom(view.current[i], Flat(view.history) + view.current, p, u.declaredVramPerGpu.value, totals);
    }
  }

  lemma {:induction false} AdmitCompatible(view: View, live: map<TaskId, Task>, t: Task, u: Task, gpus: seq<int>,
        p: Pending,
      admitted: map<TaskId, Admission>, batch: nat, pos: nat, a: TaskId, b: TaskId, g: int)
    requires DistinctGpus(view.current) && Compatible(live, admitted, a, b, g)
    requires AllBooked(view.current, p, live, admitted, batch, pos)
    requires t.id !in live && Holds(u, t, gpus) && view.PickFor(t, p) == Some(gpus)
    requires a in live ==> a in admitted
    requires b in live ==> b in admitted
    ensures Compatible(live[t.id := u], admitted[t.id := Admission(batch, pos)], a, b, g)
  {
    var next := live[t.id := u];
    if g in gpus {
      var i := PickedFits(view, p, t, gpus, g);
      assert Booked(view.current[i], p, live, admitted, batch, pos);
      if t.vramMode.ExclusiveAuto? {
        WholeGpuIsBare(view, p, i);
        assert BookedAt(view.current[i], p, live, admitted, batch, pos, b);
      }
      NoOwnerWherePicked(view, p, t, live, admitted, batch, pos, i, a);
    }
  }

  /** No live task owns a picked GPU exclusively. */
  lemma {:induction false} NoOwnerWherePicked(view: View, p: Pending, t: Task, live: map<TaskId, Task>,
        admitted: map<TaskId, Admission>,
      batch: nat, pos: nat, i: nat, a: TaskId)
    requires i < |view.current| && Booked(view.current[i], p, live, admitted, batch, pos)
    requires Fits(LedgerOf(view.current[i], Flat(view.history) + view.current, p), RequestOf(t), view.history, view.current)
    requires a in live ==> a in admitted
    ensures a in live && AssignedTo(live[a], view.current[i].gpuIndex) ==> !ExclusiveActive(live[a], view.current[i].gpuIndex)
  {
    assert BookedAt(view.current[i], p, live, admitted, batch, pos, a);
  }

  lemma {:induction false} AdmitBooked(view: View, live: map<TaskId, Task>, t: Task, u: Task, gpus: seq<int>,
        p: Pending,
      admitted: map<TaskId, Admission>, batch: nat, pos: nat, i: nat)
    requires DistinctGpus(view.current) && i < |view.current|
    requires Booked(view.current[i], p, live, admitted, batch, pos)
    requires t.id !in live && Holds(u, t, gpus) && NonNegative(t) && view.PickFor(t, p) == Some(gpus)
    ensures Booked(view.current[i], Reserving(p, t, gpus), live[t.id := u], admitted[t.id := Admission(batch, pos)], batch, pos + 1)
  {
    var gpu, q, next := view.current[i], Reserving(p, t, gpus), live[t.id := u];
    var admitted' := admitted[t.id := Admission(batch, pos)];
    var g := gpu.gpuIndex;
    LoadAdd(live, t.id, u, g);
    PickedDistinct(view, t, p);
    if t.vramMode.Shared? {
      AddSharedOnce(p.shared, gpus, t.requestedVramMb.GetOr(t.requireVramMb) as real, g);
    }
    assert LoadBooked(gpu, q, next);
    var pos' := pos + 1;
    forall k
      ensures BookedAt(gpu, q, next, admitted', batch, pos', k)
    {
      assert BookedAt(gpu, p, live, admitted, batch, pos, k);
    }
  }

  /** One admission: the picked task joins the live ones. */
  lemma {:induction false} AdmitIsSafe(view: View, live: map<TaskId, Task>, t: Task, u: Task, gpus: seq<int>,
        p: Pending, totals: Totals,
      admitted: map<TaskId, Admission>, batch: nat, pos: nat)
    requires Safe(live, totals, admitted) && SampleOk(view.current, totals)
    requires AllBooked(view.current, p, live, admitted, batch, pos)
    requires t.id !in live && Holds(u, t, gpus) && NonNegative(t) && view.PickFor(t, p) == Some(gpus)
    ensures Safe(live[t.id := u], totals, admitted[t.id := Admission(batch, pos)])
    ensures AllBooked(view.current, Reserving(p, t, gpus), live[t.id := u], admitted[t.id := Admission(batch, pos)], batch, pos + 1)
  {
    var next, admitted' := live[t.id := u], admitted[t.id := Admission(batch, pos)];
    forall k
      ensures TaskOk(next, totals, admitted', k)
    {
      assert TaskOk(live, totals, admitted, k);
      HeldClaimOk(u, t, gpus, totals);
    }
    forall g
      ensures LoadFits(next, totals, g)
    {
      assert LoadFits(live, totals, g);
      AdmitLoadFits(view, live, t, u, gpus, p, totals, admitted, batch, pos, g);
    }
    forall a, b, g
      ensures Compatible(next, admitted', a, b, g)
    {
      assert Compatible(live, admitted, a, b, g) && TaskOk(live, totals, admitted, a) && TaskOk(live, totals, admitted, b);
      AdmitCompatible(view, live, t, u, gpus, p, admitted, batch, pos, a, b, g);
    }
    forall i | 0 <= i < |view.current|
      ensures Booked(view.current[i], Reserving(p, t, gpus), next, admitted', batch, pos + 1)
    {
      assert Booked(view.current[i], p, live, admitted, batch, pos);
      AdmitBooked(view, live, t, u, gpus, p, admitted, batch, pos, i);
    }
  }

  /** Changing parts of a live record that are not its claim, as a launch does with its pid, keeps the bookings. */
  lemma {:induction false} WeakerIsBooked(sample: Sample, p: Pending, live: map<TaskId, Task>, next: map<TaskId, Task>,
        totals: Totals,
      admitted: map<TaskId, Admission>, batch: nat, pos: nat)
    requires Safe(live, totals, admitted) && Weaker(next, live) && AllBooked(sample, p, live, admitted, batch, pos)
    ensures AllBooked(sample, p, next, admitted, batch, pos)
  {
    forall i | 0 <= i < |sample|
      ensures Booked(sample[i], p, next, admitted, batch, pos)
    {
      assert Booked(sample[i], p, live, admitted, batch, pos);
      forall k | k in live
        ensures Contribution(live[k], sample[i].gpuIndex) >= 0
      {
        assert TaskOk(live, totals, admitted, k);
        ContributionNonNegative(live[k], totals, sample[i].gpuIndex);
      }
      LoadShrinks(live, next, sample[i].gpuIndex);
      forall k
        ensures BookedAt(sample[i], p, next, admitted, batch, pos, k)
      {
        assert BookedAt(sample[i], p, live, admitted, batch, pos, k);
      }
    }
  }

  /** A sample that covers the live tasks books them all before the batch starts. */
  lemma {:induction false} CoveredIsBooked(sample: Sample, live: map<TaskId, Task>, totals: Totals,
        admitted: map<TaskId, Admission>, batch: nat)
    requires Safe(live, totals, admitted) && SampleCovers(sample, live)
    ensures AllBooked(sample, NO_PENDING, live, admitted, batch, 0)
  {
    forall i | 0 <= i < |sample|
      ensures Booked(sample[i], NO_PENDING, live, admitted, batch, 0)
    {
      var gpu := sample[i];
      if !HasOwner(gpu) {
        forall k | k in live && AssignedTo(live[k], gpu.gpuIndex)
          ensures Listed(gpu.pmeowTasks, live[k], gpu.gpuIndex)
        {
          assert CoversTask(sample, live, i, k);
          var j :| 0 <= j < |gpu.pmeowTasks| && CoversBy(gpu, live[k], j);
          assert ListedAt(gpu.pmeowTasks, live[k], gpu.gpuIndex, j);
        }
        forall k | k in live ensures live[k].id == k { assert TaskOk(live, totals, admitted, k); }
        ManagedCoversLoad(live, gpu.pmeowTasks, gpu.gpuIndex);
      }
      forall k
        ensures BookedAt(gpu, NO_PENDING, live, admitted, batch, 0, k)
      {
        assert CoversTask(sample, live, i, k);
        if k in live && AssignedTo(live[k], gpu.gpuIndex) {
          var j :| 0 <= j < |gpu.pmeowTasks| && CoversBy(gpu, live[k], j);
        }
      }
    }
  }
}
