/** When an exclusive hold is reclaimed, over whole runs. */
module ReclaimRuns {
  import opened Basics
  import opened Models
  import opened QueueSpec
  import opened Attribution
  import opened Node
  import opened Runs
  import opened Safety
  import opened RunSafety
  import opened Journals
  import opened Reclaim

  /** The end of the task's observation window: the clock that started it plus the window it was submitted with, or 300
      seconds. */
  function WindowEnd(j: Journal): real
    requires j.started.Some?
  {
    j.started.value.at + (match j.spec.autoObserveWindowSec
                          case Some(seconds) => seconds as real
                          case None => 300.0)
  }

  predicate PastWindow(j: Journal, i: int)
    requires j.started.Some? && 0 <= i < |j.rounds|
  {
    j.rounds[i].now >= WindowEnd(j)
  }

  /** The first cycle at or after the end of the window is the one at `n`. */
  predicate FirstPast(j: Journal, n: int)
    requires j.started.Some?
  {
    0 <= n < |j.rounds| && PastWindow(j, n) && forall i :: 0 <= i < n ==> !PastWindow(j, i)
  }

  predicate AnyPast(j: Journal)
    requires j.started.Some?
  {
    exists i :: 0 <= i < |j.rounds| && PastWindow(j, i)
  }

  predicate PastAt(t: Task, rounds: seq<Round>, i: int)
    requires t.startedAt.Some? && 0 <= i < |rounds|
  {
    rounds[i].now >= EndOfWindow(t)
  }

  /** The observed rounds end with the first one past the window, if there is one. */
  lemma {:induction false} ObservedUpToFirst(t: Task, rounds: seq<Round>)
    requires t.startedAt.Some?
    ensures var n := ObservedRounds(t, rounds);
      && (forall i :: 0 <= i < n - 1 ==> !PastAt(t, rounds, i))
      && (n < |rounds| ==> n > 0 && PastAt(t, rounds, n - 1))
      && (|rounds| > 0 ==> n > 0)
    decreases |rounds|
  {
    if rounds != [] {
      ObservedUpToFirst(t, Init(rounds));
      assert forall i :: 0 <= i < |rounds| - 1 ==> (PastAt(t, rounds, i) <==> PastAt(t, Init(rounds), i));
    }
  }

  lemma {:induction false} RunningRecord(k: TaskId, j: Journal, t: Task, cfg: Config)
    requires RunningStory(j) && Unmarked(t) == RecordFrom(k, j, cfg) && !t.reportedSinceTerminal
    ensures t == UpdatedOver(FirstRecord(k, j, cfg), j.rounds)
  {
  }

  /** What the cycles that observed the task leave of its hold. */
  ghost predicate HoldIs(t: Task, k: TaskId, j: Journal)
    requires j.started.Some?
  {
    && (t.autoReclaimDone <==> AnyPast(j))
    && (!AnyPast(j) ==> forall g :: ExclusiveActive(t, g))
    && (forall n, g :: FirstPast(j, n) && AssignedTo(t, g) ==> ReclaimedAt(t, k, j.rounds, n, g))
  }

  /** The hold on the GPU is what the largest use seen up to round `n` leaves on the card that round shows. */
  ghost predicate ReclaimedAt(t: Task, k: TaskId, rounds: seq<Round>, n: int, g: int)
    requires 0 <= n < |rounds|
  {
    var peak := MaxCeil(Uses(rounds, n + 1, k, g));
    ReclaimedOn(t, g) == if peak.Some? then ReclaimTo(peak.value, TotalMb(rounds[n].perGpu, g)) else None
  }

  lemma {:induction false} StandingReclaims(first: Task, t: Task, rounds: seq<Round>, n: nat, g: int)
    requires first.startedAt.Some? && Standing(first, t, rounds) && ObservedRounds(first, rounds) == n + 1
    requires PastAt(first, rounds, n) && AssignedTo(t, g)
    ensures ReclaimedAt(t, first.id, rounds, n, g)
  {
    assert PeakIs(t, g, MaxCeil(Uses(rounds, n + 1, first.id, g)));
  }

  lemma {:induction false} HoldFromStanding(k: TaskId, j: Journal, first: Task, t: Task)
    requires j.started.Some? && first.startedAt == Some(j.started.value.at) && first.id == k
    requires first.autoObserveWindowSec == j.spec.autoObserveWindowSec && first.vramMode.ExclusiveAuto?
    requires first.autoReclaimedMb.None? && Standing(first, t, j.rounds)
    ensures HoldIs(t, k, j)
  {
    var n, rounds := ObservedRounds(first, j.rounds), j.rounds;
    ObservedUpToFirst(first, rounds);
    assert EndOfWindow(first) == WindowEnd(j);
    forall i | 0 <= i < |rounds| ensures PastAt(first, rounds, i) <==> PastWindow(j, i) {}
    assert t.autoReclaimDone <==> n > 0 && PastAt(first, rounds, n - 1);
    forall m, g | FirstPast(j, m) && AssignedTo(t, g)
      ensures ReclaimedAt(t, k, rounds, m, g)
    {
      assert PastAt(first, rounds, m);
      StandingReclaims(first, t, rounds, m, g);
    }
  }

  /** RECLAIM. In every reachable state a running exclusive task with GPUs has been reclaimed if and only if some cycle that
      found it running came at or after the end of its window, counted from the clock that started it. Until then it is
      exclusive on every GPU; the first such cycle replaces each hold by what the largest use seen leaves, and nothing
      changes it later. */
  lemma {:induction false} ReclaimOverRuns(steps: seq<Step>, w: World, totals: Totals, cfg: Config,
        js: map<TaskId, Journal>, k: TaskId)
    requires ReachedTelling(steps, w, totals, cfg, js)
    requires k in w.node.q.running.vals && w.node.q.running.vals[k].vramMode.ExclusiveAuto?
    requires w.node.q.running.vals[k].assignedGpus.GetOr([]) != []
    ensures k in js && js[k].started.Some? && HoldIs(w.node.q.running.vals[k], k, js[k])
  {
    var t := w.node.q.running.vals[k];
    RecordsTell(steps, w, totals, cfg, js);
    assert TellsAt(w.node.q, js, cfg, k);
    RunningHold(k, js[k], t, cfg);
  }

  lemma {:induction false} RunningHold(k: TaskId, j: Journal, t: Task, cfg: Config)
    requires RunningStory(j) && Unmarked(t) == RecordFrom(k, j, cfg)
    requires t.vramMode.ExclusiveAuto? && t.assignedGpus.GetOr([]) != []
    ensures HoldIs(t, k, j)
  {
    var first, u := FirstRecord(k, j, cfg), Unmarked(t);
    RunningRecord(k, j, u, cfg);
    KeepsMode(first, j.rounds);
    ReclaimOverLife(first, j.rounds);
    HoldFromStanding(k, j, first, u);
    HoldUnmarked(t, k, j);
  }

  lemma {:induction false} KeepsMode(t: Task, rounds: seq<Round>)
    ensures var u := UpdatedOver(t, rounds); u.vramMode == t.vramMode && u.assignedGpus == t.assignedGpus
    decreases |rounds|
  {
    if rounds != [] { KeepsMode(t, Init(rounds)); }
  }

  lemma {:induction false} HoldUnmarked(t: Task, k: TaskId, j: Journal)
    requires j.started.Some? && HoldIs(Unmarked(t), k, j)
    ensures HoldIs(t, k, j)
  {
    var u := Unmarked(t);
    forall g ensures ExclusiveActive(t, g) <==> ExclusiveActive(u, g) {}
    forall n, g | FirstPast(j, n) && AssignedTo(t, g)
      ensures ReclaimedAt(t, k, j.rounds, n, g)
    {
      assert AssignedTo(u, g) && ReclaimedAt(u, k, j.rounds, n, g);
    }
  }

  // ---------------------------------------------------------------------------
  // What a round shows
  // ---------------------------------------------------------------------------

  /** The entry at `k` is the task's last one. */
  predicate LastEntry(s: seq<TaskAllocation>, id: TaskId, k: int) {
    0 <= k < |s| && s[k].taskId == id && forall m :: k < m < |s| ==> s[m].taskId != id
  }

  lemma {:induction false} LastInMeans(s: seq<TaskAllocation>, id: TaskId)
    ensures LastIn(s, id).None? <==> forall k :: 0 <= k < |s| ==> s[k].taskId != id
    ensures forall k :: LastEntry(s, id, k) ==> LastIn(s, id) == Some(s[k].actualMb)
    decreases |s|
  {
    if s != [] {
      LastInMeans(Init(s), id);
      assert forall k :: 0 <= k < |s| - 1 ==> s[k] == Init(s)[k];
      if Last(s).taskId != id {
        forall k | LastEntry(s, id, k) ensures LastEntry(Init(s), id, k) {}
      }
    }
  }

  /** In a sample that lists each GPU once, the use that a round observes is that of the task's last entry on the GPU, if it
      has one there, and the card's size is the one shown. */
  lemma {:induction false} RoundShows(sample: Sample, id: TaskId, g: int, i: nat)
    requires DistinctGpus(sample) && i < |sample| && sample[i].gpuIndex == g
    ensures forall k :: LastEntry(sample[i].pmeowTasks, id, k) ==> ActualMb(sample, id, g) == Some(sample[i].pmeowTasks[k].actualMb)
    ensures (forall k :: 0 <= k < |sample[i].pmeowTasks| ==> sample[i].pmeowTasks[k].taskId != id) ==>
      ActualMb(sample, id, g).None?
    ensures TotalMb(sample, g) == sample[i].totalMb
    decreases |sample|
  {
    LastInMeans(sample[i].pmeowTasks, id);
    if i < |sample| - 1 {
      RoundShows(Init(sample), id, g, i);
    } else {
      NotShown(Init(sample), id, g);
    }
  }

  /** A GPU that the sample does not list is not observed. */
  lemma {:induction false} NotShown(sample: Sample, id: TaskId, g: int)
    requires forall i :: 0 <= i < |sample| ==> sample[i].gpuIndex != g
    ensures ActualMb(sample, id, g).None? && TotalMb(sample, g) == 0.0
    decreases |sample|
  {
    if sample != [] { NotShown(Init(sample), id, g); }
  }
}
