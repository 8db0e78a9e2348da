/** Shrinking an exclusive task's hold once its memory peak is known. */
module Reclaim {
  import opened Basics
  import opened Models
  import opened Attribution
  import opened Scheduling

  const DEFAULT_AUTO_OBSERVE_WINDOW_SEC: int := 300
  const AUTO_RECLAIM_THRESHOLD_RATIO: real := 0.7
  const AUTO_RECLAIM_MARGIN_MB: int := 512
  const AUTO_RECLAIM_MULTIPLIER: real := 1.1

  // ---------------------------------------------------------------------------
  // What a sample says about one task on one GPU
  // ---------------------------------------------------------------------------

  function LastIn(allocations: seq<TaskAllocation>, id: TaskId): Option<real> {
    if allocations == [] then None
    else if Last(allocations).taskId == id then Some(Last(allocations).actualMb)
    else LastIn(Init(allocations), id)
  }

  /** The use of the last listed entry of the task on the GPU. */
  function ActualMb(perGpu: Sample, id: TaskId, g: int): Option<real> {
    if perGpu == [] then None
    else
      var here := if Last(perGpu).gpuIndex == g then LastIn(Last(perGpu).pmeowTasks, id) else None;
      if here.Some? then here else ActualMb(Init(perGpu), id, g)
  }

  function TotalMb(perGpu: Sample, g: int): real {
    if perGpu == [] then 0.0
    else if Last(perGpu).gpuIndex == g then Last(perGpu).totalMb
    else TotalMb(Init(perGpu), g)
  }

  // ---------------------------------------------------------------------------
  // Peaks and reclaim
  // ---------------------------------------------------------------------------

  function PeakOn(peaks: map<int, int>, g: int): int {
    if g in peaks then peaks[g] else 0
  }

  function Observe(peaks: map<int, int>, g: int, actual: Option<real>): map<int, int> {
    if actual.Some? && Ceil(actual.value) > PeakOn(peaks, g) then peaks[g := Ceil(actual.value)] else peaks
  }

  function ObserveAll(peaks: map<int, int>, gpus: seq<int>, id: TaskId, perGpu: Sample): map<int, int> {
    if gpus == [] then peaks
    else Observe(ObserveAll(peaks, Init(gpus), id, perGpu), Last(gpus), ActualMb(perGpu, id, Last(gpus)))
  }

  /** The reservation that replaces an exclusive hold, or none if the hold stays. */
  function ReclaimTo(peak: int, totalMb: real): Option<int> {
    if totalMb <= 0.0 || peak as real >= totalMb * AUTO_RECLAIM_THRESHOLD_RATIO then None
    else Some(Ceil(MaxReal(peak as real * AUTO_RECLAIM_MULTIPLIER, (peak + AUTO_RECLAIM_MARGIN_MB) as real)))
  }

  function ReclaimedMap(gpus: seq<int>, peaks: map<int, int>, perGpu: Sample): (m: map<int, Option<int>>)
    ensures forall g :: g in m <==> g in gpus
    ensures forall g :: g in m ==> m[g] == if g in peaks then ReclaimTo(peaks[g], TotalMb(perGpu, g)) else None
  {
    if gpus == [] then map[]
    else
      var g := Last(gpus);
      assert gpus == Init(gpus) + [g];
      ReclaimedMap(Init(gpus), peaks, perGpu)[g := if g in peaks then ReclaimTo(peaks[g], TotalMb(perGpu, g)) else None]
  }

  predicate Observable(t: Task) {
    t.vramMode.ExclusiveAuto? && !t.autoReclaimDone && t.assignedGpus.GetOr([]) != [] && t.startedAt.Some?
  }

  function Observed(t: Task, perGpu: Sample): Task
    requires Observable(t)
  {
    t.(autoObserveWindowSec := Some(t.autoObserveWindowSec.GetOr(DEFAULT_AUTO_OBSERVE_WINDOW_SEC)),
       autoPeakMb := Some(ObserveAll(t.autoPeakMb.GetOr(map[]), t.assignedGpus.value, t.id, perGpu)))
  }

  predicate WindowOver(t: Task, now: real) {
    t.startedAt.Some? && t.autoObserveWindowSec.Some? && now >= t.startedAt.value + t.autoObserveWindowSec.value as real
  }

  function Finished(t: Task, perGpu: Sample): Task {
    t.(autoReclaimedMb := Some(ReclaimedMap(t.assignedGpus.GetOr([]), t.autoPeakMb.GetOr(map[]), perGpu)),
       autoReclaimDone := true)
  }

  /** One cycle's update of one running task. */
  function Updated(t: Task, perGpu: Sample, now: real): Task {
    if !Observable(t) then t
    else
      var o := Observed(t, perGpu);
      if WindowOver(o, now) then Finished(o, perGpu) else o
  }

  // ---------------------------------------------------------------------------
  // Bounds
  // ---------------------------------------------------------------------------

  /** `w` leaves the margin over the peak. */
  predicate Enough(w: int, peak: int) {
    w >= peak + 512 && w as real >= 1.1 * peak as real
  }

  /** A hold is reclaimed exactly for a peak below 0.7 of a card of known size, and then to the least whole number that is
      at least peak + 512 and at least 1.1 times the peak. */
  lemma {:induction false} ReclaimBounds(peak: int, totalMb: real)
    ensures ReclaimTo(peak, totalMb).Some? <==> totalMb > 0.0 && peak as real < 0.7 * totalMb
    ensures ReclaimTo(peak, totalMb).Some? ==>
      var v := ReclaimTo(peak, totalMb).value;
      Enough(v, peak) && forall w: int :: Enough(w, peak) ==> v <= w
  {
  }

  /** Every peak the card lets through is reclaimed to at most 0.98 of the card. */
  ghost predicate ReclaimSafe(totalMb: real) {
    forall peak: int :: peak > 0 && ReclaimTo(peak, totalMb).Some? ==> Reserves(peak, totalMb)
  }

  ghost predicate Reserves(peak: int, totalMb: real) {
    ReclaimTo(peak, totalMb).Some? && ReclaimTo(peak, totalMb).value as real <= totalMb * CAPACITY_FACTOR
  }

  /** The largest whole peak below 0.7 of the card. */
  function LargestPeak(totalMb: real): int {
    Ceil(totalMb * AUTO_RECLAIM_THRESHOLD_RATIO) - 1
  }

  /** A card is safe to reclaim on exactly when it lets no positive peak through or its largest one fits. */
  lemma {:induction false} ReclaimSafeExactly(totalMb: real)
    ensures ReclaimSafe(totalMb) <==>
      totalMb <= 0.0 || LargestPeak(totalMb) <= 0 || Reserves(LargestPeak(totalMb), totalMb)
  {
  }

  /** The most that a reclaim can leave declared on the card: what the largest peak it lets through is reclaimed to. */
  function LargestReclaim(totalMb: real): int {
    if totalMb > 0.0 && LargestPeak(totalMb) > 0 then ReclaimTo(LargestPeak(totalMb), totalMb).GetOr(0) else 0
  }

  lemma {:induction false} ReclaimMonotone(peak: int, larger: int, totalMb: real)
    requires 0 < peak <= larger && ReclaimTo(larger, totalMb).Some?
    ensures ReclaimTo(peak, totalMb).Some? && 0 <= ReclaimTo(peak, totalMb).value <= ReclaimTo(larger, totalMb).value
  {
  }

  /** The largest peak is let through, and no larger one. */
  lemma {:induction false} LargestPeakIsLargest(peak: int, totalMb: real)
    ensures totalMb > 0.0 ==> (ReclaimTo(peak, totalMb).Some? <==> peak <= LargestPeak(totalMb))
  {
  }

  /** No reclaim leaves more than `LargestReclaim`. */
  lemma {:induction false} ReclaimWithinLargest(peak: int, totalMb: real)
    requires peak > 0 && ReclaimTo(peak, totalMb).Some?
    ensures 0 <= ReclaimTo(peak, totalMb).value <= LargestReclaim(totalMb)
  {
    LargestPeakIsLargest(peak, totalMb);
    LargestPeakIsLargest(LargestPeak(totalMb), totalMb);
    ReclaimMonotone(peak, LargestPeak(totalMb), totalMb);
  }

  /** Unless it is 0 it is the result of a reclaim, and comparing it with the capacity decides the card's safety. */
  lemma {:induction false} LargestReclaimDecides(totalMb: real)
    requires totalMb >= 0.0
    ensures LargestReclaim(totalMb) != 0 ==>
      LargestPeak(totalMb) > 0 && ReclaimTo(LargestPeak(totalMb), totalMb) == Some(LargestReclaim(totalMb))
    ensures ReclaimSafe(totalMb) <==> LargestReclaim(totalMb) as real <= totalMb * CAPACITY_FACTOR
  {
    ReclaimSafeExactly(totalMb);
    LargestPeakIsLargest(LargestPeak(totalMb), totalMb);
  }

  /** From 1829 MB on every card is safe. */
  lemma {:induction false} LargeCardsAreSafe(totalMb: real)
    requires totalMb >= 1829.0
    ensures ReclaimSafe(totalMb)
  {
  }

  /** An 1800 MB card is not: a peak of 1259 MB is reclaimed to 1771 MB, above 0.98 of the card. */
  lemma {:induction false} SmallCardWitness()
    ensures ReclaimTo(1259, 1800.0) == Some(1771) && !ReclaimSafe(1800.0)
  {
  }

  // ---------------------------------------------------------------------------
  // Peaks are maxima
  // ---------------------------------------------------------------------------

  /** The largest rounded-up positive use in `seen`, or none. */
  function MaxCeil(seen: seq<Option<real>>): Option<int> {
    if seen == [] then None
    else
      var before := MaxCeil(Init(seen));
      if Last(seen).None? || Ceil(Last(seen).value) <= before.GetOr(0) then before else Some(Ceil(Last(seen).value))
  }

  /** `MaxCeil` bounds every rounded-up use, and when it is something it is one of them and positive. */
  lemma {:induction false} MaxCeilIsMaximum(seen: seq<Option<real>>)
    ensures forall i :: 0 <= i < |seen| && seen[i].Some? ==> Ceil(seen[i].value) <= MaxCeil(seen).GetOr(0)
    ensures MaxCeil(seen).GetOr(0) >= 0
    ensures MaxCeil(seen).Some? ==> MaxCeil(seen).value > 0
    ensures MaxCeil(seen).Some? ==>
      exists i :: 0 <= i < |seen| && seen[i].Some? && Ceil(seen[i].value) == MaxCeil(seen).value
    decreases |seen|
  {
    if seen != [] {
      MaxCeilIsMaximum(Init(seen));
      forall i | 0 <= i < |seen| && seen[i].Some?
        ensures Ceil(seen[i].value) <= MaxCeil(seen).GetOr(0)
      {
        if i < |seen| - 1 { assert Init(seen)[i] == seen[i]; }
      }
      if MaxCeil(seen).Some? && MaxCeil(seen) == MaxCeil(Init(seen)) {
        var i :| 0 <= i < |Init(seen)| && Init(seen)[i].Some? && Ceil(Init(seen)[i].value) == MaxCeil(seen).value;
        assert seen[i] == Init(seen)[i];
      }
    }
  }

  lemma {:induction false} ObserveAllOn(peaks: map<int, int>, gpus: seq<int>, id: TaskId, perGpu: Sample, g: int)
    ensures var after := ObserveAll(peaks, gpus, id, perGpu); var once := Observe(peaks, g, ActualMb(perGpu, id, g));
      && (g in gpus ==> (g in after <==> g in once) && PeakOn(after, g) == PeakOn(once, g))
      && (g !in gpus ==> (g in after <==> g in peaks) && PeakOn(after, g) == PeakOn(peaks, g))
    decreases |gpus|
  {
    if gpus != [] {
      assert gpus == Init(gpus) + [Last(gpus)];
      ObserveAllOn(peaks, Init(gpus), id, perGpu, g);
    }
  }

  /** If a stored peak is the maximum of what was seen, observing once more keeps it so. */
  lemma {:induction false} PeakStaysMaximum(peaks: map<int, int>, gpus: seq<int>, id: TaskId, perGpu: Sample, g: int,
        seen: seq<Option<real>>)
    requires g in gpus
    requires (g in peaks <==> MaxCeil(seen).Some?) && PeakOn(peaks, g) == MaxCeil(seen).GetOr(0)
    ensures var after := ObserveAll(peaks, gpus, id, perGpu); var all := seen + [ActualMb(perGpu, id, g)];
      (g in after <==> MaxCeil(all).Some?) && PeakOn(after, g) == MaxCeil(all).GetOr(0)
  {
    ObserveAllOn(peaks, gpus, id, perGpu, g);
    InitSnoc(seen, ActualMb(perGpu, id, g));
  }

  // ---------------------------------------------------------------------------
  // A task's whole life
  // ---------------------------------------------------------------------------

  /** One cycle as the task sees it: the sample and the clock. */
  datatype Round = Round(perGpu: Sample, now: real)

  /** The task after one update per round. */
  function UpdatedOver(t: Task, rounds: seq<Round>): Task {
    if rounds == [] then t else Updated(UpdatedOver(t, Init(rounds)), Last(rounds).perGpu, Last(rounds).now)
  }

  function EndOfWindow(t: Task): real
    requires t.startedAt.Some?
  {
    t.startedAt.value + t.autoObserveWindowSec.GetOr(DEFAULT_AUTO_OBSERVE_WINDOW_SEC) as real
  }

  /** How many rounds observe the task: all up to the first one at or after the end of its window. */
  function ObservedRounds(t: Task, rounds: seq<Round>): (n: nat)
    requires t.startedAt.Some?
    ensures n <= |rounds|
  {
    if rounds == [] then 0
    else
      var before := ObservedRounds(t, Init(rounds));
      if before < |rounds| - 1 || (before > 0 && rounds[before - 1].now >= EndOfWindow(t)) then before else before + 1
  }

  /** The task's uses of GPU `g` in the first `n` rounds. */
  function Uses(rounds: seq<Round>, n: nat, id: TaskId, g: int): seq<Option<real>>
    requires n <= |rounds|
  {
    seq(n, i requires 0 <= i < n => ActualMb(rounds[i].perGpu, id, g))
  }

  ghost predicate PeakIs(t: Task, g: int, max: Option<int>) {
    var peaks := t.autoPeakMb.GetOr(map[]);
    (g in peaks <==> max.Some?) && PeakOn(peaks, g) == max.GetOr(0)
  }

  /** Where a freshly started exclusive task stands after `rounds`. */
  ghost predicate Standing(t: Task, u: Task, rounds: seq<Round>)
    requires t.startedAt.Some?
  {
    var n := ObservedRounds(t, rounds);
    && u.id == t.id && u.vramMode == t.vramMode && u.assignedGpus == t.assignedGpus && u.startedAt == t.startedAt
    && (n > 0 ==> u.autoObserveWindowSec == Some(t.autoObserveWindowSec.GetOr(DEFAULT_AUTO_OBSERVE_WINDOW_SEC)))
    && (n == 0 ==> u.autoObserveWindowSec == t.autoObserveWindowSec)
    && (forall g :: g in t.assignedGpus.GetOr([]) ==> PeakIs(u, g, MaxCeil(Uses(rounds, n, t.id, g))))
    && (u.autoReclaimDone <==> n > 0 && rounds[n - 1].now >= EndOfWindow(t))
    && (!u.autoReclaimDone ==> n == |rounds| && u.autoReclaimedMb == t.autoReclaimedMb)
    && (u.autoReclaimDone ==>
          u.autoReclaimedMb == Some(ReclaimedMap(t.assignedGpus.GetOr([]), u.autoPeakMb.GetOr(map[]), rounds[n - 1].perGpu)))
  }

  lemma {:induction false} UsesSnoc(rounds: seq<Round>, id: TaskId, g: int)
    requires rounds != []
    ensures Uses(rounds, |rounds|, id, g) == Uses(Init(rounds), |rounds| - 1, id, g) + [ActualMb(Last(rounds).perGpu, id, g)]
  {
  }

  lemma {:induction false} StandingObserved(t: Task, u: Task, rounds: seq<Round>)
    requires Observable(t) && rounds != [] && Standing(t, u, Init(rounds)) && !u.autoReclaimDone
    ensures Standing(t, Updated(u, Last(rounds).perGpu, Last(rounds).now), rounds)
  {
    var r := Last(rounds);
    var v := Updated(u, r.perGpu, r.now);
    assert ObservedRounds(t, rounds) == |rounds|;
    forall g | g in t.assignedGpus.GetOr([])
      ensures PeakIs(v, g, MaxCeil(Uses(rounds, |rounds|, t.id, g)))
    {
      var seen := Uses(Init(rounds), |rounds| - 1, t.id, g);
      assert PeakIs(u, g, MaxCeil(seen));
      UsesSnoc(rounds, t.id, g);
      PeakStaysMaximum(u.autoPeakMb.GetOr(map[]), t.assignedGpus.value, t.id, r.perGpu, g, seen);
    }
  }

  lemma {:induction false} StandingDone(t: Task, u: Task, rounds: seq<Round>)
    requires t.startedAt.Some? && rounds != [] && Standing(t, u, Init(rounds)) && u.autoReclaimDone
    ensures Standing(t, u, rounds)
  {
    var n := ObservedRounds(t, Init(rounds));
    assert ObservedRounds(t, rounds) == n;
    forall g ensures Uses(rounds, n, t.id, g) == Uses(Init(rounds), n, t.id, g) {}
  }

  /** The whole life of an exclusive task's hold. Each stored peak is the largest rounded-up positive use seen in the
      rounds up to the end of the observation window; the reclaim happens once, in the first round at or after that
      end, from exactly those peaks and that round's card totals; and no later round changes it. */
  lemma {:induction false} ReclaimOverLife(t: Task, rounds: seq<Round>)
    requires Observable(t) && t.autoPeakMb.None? && t.autoReclaimedMb.None?
    ensures Standing(t, UpdatedOver(t, rounds), rounds)
    decreases |rounds|
  {
    if rounds == [] {
      forall g ensures Uses(rounds, 0, t.id, g) == [] {}
    } else {
      ReclaimOverLife(t, Init(rounds));
      var u := UpdatedOver(t, Init(rounds));
      if u.autoReclaimDone {
        StandingDone(t, u, rounds);
      } else {
        StandingObserved(t, u, rounds);
      }
    }
  }

  /** A GPU on which no positive use was ever seen stays exclusive. */
  lemma {:induction false} NoSampleStaysExclusive(t: Task, rounds: seq<Round>, g: int)
    requires Observable(t) && t.autoPeakMb.None? && t.autoReclaimedMb.None? && AssignedTo(t, g)
    requires forall i :: 0 <= i < |rounds| ==> ActualMb(rounds[i].perGpu, t.id, g).GetOr(0.0) <= 0.0
    ensures ExclusiveActive(UpdatedOver(t, rounds), g)
  {
    ReclaimOverLife(t, rounds);
    var n := ObservedRounds(t, rounds);
    NoPositiveUse(Uses(rounds, n, t.id, g));
    assert PeakIs(UpdatedOver(t, rounds), g, MaxCeil(Uses(rounds, n, t.id, g)));
  }

  lemma {:induction false} NoPositiveUse(seen: seq<Option<real>>)
    requires forall i :: 0 <= i < |seen| ==> seen[i].GetOr(0.0) <= 0.0
    ensures MaxCeil(seen).None?
    decreases |seen|
  {
    if seen != [] {
      NoPositiveUse(Init(seen));
    }
  }
}
