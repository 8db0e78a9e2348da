/** What the sample history of the node is over whole runs: the snapshots of the run's own cycles. */
module HistoryRuns {
  import opened Basics
  import opened Models
  import opened QueueSpec
  import opened Node
  import opened Runs
  import opened Scheduling
  import opened SchedulingFacts
  import History
  import NodeSafety
  import RunSafety
  import Safety

  /** Every sample of the history that a batch sees was recorded before, or is the one in flight. */
  lemma {:induction false} ViewHistory(s: NodeState, input: CycleInput, cfg: Config)
    requires s.inFlight.Some?
    ensures forall i :: 0 <= i < |ViewOf(s, input, cfg).history| ==>
      ViewOf(s, input, cfg).history[i] in s.samples + [s.inFlight.value]
  {
    var all := s.samples + [s.inFlight.value];
    var h := ViewOf(s, input, cfg).history;
    forall i | 0 <= i < |h|
      ensures h[i] in all
    {
      History.SinceSubset(StoredHistory(s, cfg), input.clock - cfg.historyWindow, h[i]);
      History.SinceSubset(all, s.inFlight.value.timestamp - cfg.historyWindow, h[i]);
    }
  }

  /** The snapshot that a cycle records. */
  function Logged(s: NodeState, step: Step): seq<TimedSample> {
    if step.CycleStep? && s.inFlight.Some? then [s.inFlight.value] else []
  }

  /** As `RunSafety.Reached`, where `log` lists the snapshots of all cycles so far. */
  ghost predicate ReachedLogging(steps: seq<Step>, w: World, totals: Safety.Totals, cfg: Config, log: seq<TimedSample>)
    decreases |steps|
  {
    if steps == [] then w == START && log == []
    else exists before: World, earlier: seq<TimedSample> ::
      && ReachedLogging(Init(steps), before, totals, cfg, earlier) && Leads(before, Last(steps), w, totals, cfg)
      && log == earlier + Logged(before.node, Last(steps))
  }

  /** Every run has such a log. */
  lemma {:induction false} EveryRunLogs(steps: seq<Step>, w: World, totals: Safety.Totals, cfg: Config)
    returns (log: seq<TimedSample>)
    requires RunSafety.Reached(steps, w, totals, cfg)
    ensures ReachedLogging(steps, w, totals, cfg, log)
    decreases |steps|
  {
    if steps == [] {
      log := [];
    } else {
      var before: World :|
        RunSafety.Reached(Init(steps), before, totals, cfg) && Leads(before, Last(steps), w, totals, cfg);
      var earlier := EveryRunLogs(Init(steps), before, totals, cfg);
      log := earlier + Logged(before.node, Last(steps));
    }
  }

  lemma {:induction false} LoggingIsReached(steps: seq<Step>, w: World, totals: Safety.Totals, cfg: Config,
        log: seq<TimedSample>)
    requires ReachedLogging(steps, w, totals, cfg, log)
    ensures RunSafety.Reached(steps, w, totals, cfg)
    decreases |steps|
  {
    if steps != [] {
      var before: World, earlier: seq<TimedSample> :|
        && ReachedLogging(Init(steps), before, totals, cfg, earlier) && Leads(before, Last(steps), w, totals, cfg)
        && log == earlier + Logged(before.node, Last(steps));
      LoggingIsReached(Init(steps), before, totals, cfg, earlier);
    }
  }

  /** The stored samples once `logged` is recorded. */
  function Stored(samples: seq<TimedSample>, logged: seq<TimedSample>, window: real): seq<TimedSample> {
    if logged == [] then samples else History.Since(samples + logged, Last(logged).timestamp - window)
  }

  lemma {:induction false} RecordedStored(log: seq<TimedSample>, logged: seq<TimedSample>, window: real)
    requires |logged| <= 1
    ensures History.Recorded(log + logged, window) == Stored(History.Recorded(log, window), logged, window)
  {
    if logged == [] {
      assert log + logged == log;
    } else {
      assert (log + logged)[..|log|] == log && logged == [logged[0]];
    }
  }

  /** The step records the snapshot of its cycle, and nothing else. */
  ghost predicate Records(s: NodeState, step: Step, cfg: Config)
    requires QueueInv(s.q) && (step.SubmitStep? ==> step.id !in s.q.Ids())
  {
    Do(s, step, cfg).samples == Stored(s.samples, Logged(s, step), cfg.historyWindow)
  }

  lemma {:induction false} CycleStores(s: NodeState, input: CycleInput, cfg: Config)
    requires QueueInv(s.q) && s.inFlight.Some?
    ensures Do(s, CycleStep(input), cfg).samples == StoredHistory(s, cfg)
  {
  }

  lemma {:induction false} StoredOne(s: NodeState, step: Step, cfg: Config)
    requires step.CycleStep? && s.inFlight.Some?
    ensures StoredHistory(s, cfg) == Stored(s.samples, Logged(s, step), cfg.historyWindow)
  {
    assert Last([s.inFlight.value]) == s.inFlight.value;
  }

  lemma {:induction false} CycleRecords(s: NodeState, step: Step, cfg: Config)
    requires QueueInv(s.q) && step.CycleStep? && s.inFlight.Some?
    ensures Records(s, step, cfg)
  {
    StoredOne(s, step, cfg);
    CycleStores(s, step.input, cfg);
  }

  lemma {:induction false} OthersRecordNothing(s: NodeState, step: Step, cfg: Config)
    requires QueueInv(s.q) && !(step.CycleStep? && s.inFlight.Some?) && (step.SubmitStep? ==> step.id !in s.q.Ids())
    ensures Records(s, step, cfg)
  {
  }

  lemma {:induction false} StepRecords(s: NodeState, step: Step, cfg: Config)
    requires QueueInv(s.q) && (step.SubmitStep? ==> step.id !in s.q.Ids())
    ensures Records(s, step, cfg)
  {
    if step.CycleStep? && s.inFlight.Some? {
      CycleRecords(s, step, cfg);
    } else {
      OthersRecordNothing(s, step, cfg);
    }
  }

  lemma {:induction false} LedTo(before: World, step: Step, w: World, totals: Safety.Totals, cfg: Config)
    requires Leads(before, step, w, totals, cfg)
    ensures w.node.samples == Stored(before.node.samples, Logged(before.node, step), cfg.historyWindow)
  {
    StepRecords(before.node, step, cfg);
    assert w.node == Do(before.node, step, cfg);
  }

  /** In every reachable state, whatever the clock did, the stored samples are what recording the snapshots of all cycles
      leaves. */
  lemma {:induction false} SamplesAreRecorded(steps: seq<Step>, w: World, totals: Safety.Totals, cfg: Config,
        log: seq<TimedSample>)
    requires ReachedLogging(steps, w, totals, cfg, log)
    ensures w.node.samples == History.Recorded(log, cfg.historyWindow)
    decreases |steps|
  {
    if steps != [] {
      var before: World, earlier: seq<TimedSample> :|
        && ReachedLogging(Init(steps), before, totals, cfg, earlier) && Leads(before, Last(steps), w, totals, cfg)
        && log == earlier + Logged(before.node, Last(steps));
      SamplesAreRecorded(Init(steps), before, totals, cfg, earlier);
      LedTo(before, Last(steps), w, totals, cfg);
      RecordedStored(earlier, Logged(before.node, Last(steps)), cfg.historyWindow);
    }
  }

  /** The last sample once `logged` is recorded. */
  function Latest(last: Option<Sample>, logged: seq<TimedSample>): Option<Sample> {
    if logged == [] then last else Some(Last(logged).sample)
  }

  ghost predicate Remembers(s: NodeState, step: Step, cfg: Config)
    requires QueueInv(s.q) && (step.SubmitStep? ==> step.id !in s.q.Ids())
  {
    Do(s, step, cfg).lastPerGpu == Latest(s.lastPerGpu, Logged(s, step))
  }

  lemma {:induction false} CycleLatest(s: NodeState, input: CycleInput, cfg: Config)
    requires QueueInv(s.q) && s.inFlight.Some?
    ensures Do(s, CycleStep(input), cfg).lastPerGpu == Some(s.inFlight.value.sample)
  {
  }

  lemma {:induction false} LatestOne(s: NodeState, step: Step)
    requires step.CycleStep? && s.inFlight.Some?
    ensures Latest(s.lastPerGpu, Logged(s, step)) == Some(s.inFlight.value.sample)
  {
    assert Last([s.inFlight.value]) == s.inFlight.value;
  }

  lemma {:induction false} CycleRemembers(s: NodeState, step: Step, cfg: Config)
    requires QueueInv(s.q) && step.CycleStep? && s.inFlight.Some?
    ensures Remembers(s, step, cfg)
  {
    LatestOne(s, step);
    CycleLatest(s, step.input, cfg);
  }

  lemma {:induction false} OthersRemember(s: NodeState, step: Step, cfg: Config)
    requires QueueInv(s.q) && !(step.CycleStep? && s.inFlight.Some?) && (step.SubmitStep? ==> step.id !in s.q.Ids())
    ensures Remembers(s, step, cfg)
  {
  }

  lemma {:induction false} LatestAfter(before: World, step: Step, w: World, totals: Safety.Totals, cfg: Config)
    requires Leads(before, step, w, totals, cfg)
    ensures w.node.lastPerGpu == Latest(before.node.lastPerGpu, Logged(before.node, step))
  {
    if step.CycleStep? && before.node.inFlight.Some? {
      CycleRemembers(before.node, step, cfg);
    } else {
      OthersRemember(before.node, step, cfg);
    }
    assert w.node == Do(before.node, step, cfg);
  }

  lemma {:induction false} LatestSnoc(earlier: seq<TimedSample>, logged: seq<TimedSample>)
    ensures Latest(Latest(None, earlier), logged) == Latest(None, earlier + logged)
  {
    if logged == [] { assert earlier + logged == earlier; } else { assert Last(earlier + logged) == Last(logged); }
  }

  /** In every reachable state the sample that submissions are checked against is that of the last cycle. */
  lemma {:induction false} LastSampleOverRuns(steps: seq<Step>, w: World, totals: Safety.Totals, cfg: Config,
        log: seq<TimedSample>)
    requires ReachedLogging(steps, w, totals, cfg, log)
    ensures w.node.lastPerGpu == if log == [] then None else Some(Last(log).sample)
    decreases |steps|
  {
    if steps != [] {
      var before: World, earlier: seq<TimedSample> :|
        && ReachedLogging(Init(steps), before, totals, cfg, earlier) && Leads(before, Last(steps), w, totals, cfg)
        && log == earlier + Logged(before.node, Last(steps));
      LastSampleOverRuns(Init(steps), before, totals, cfg, earlier);
      LatestAfter(before, Last(steps), w, totals, cfg);
      LatestSnoc(earlier, Logged(before.node, Last(steps)));
    }
  }

  ghost predicate AllDistinct(samples: seq<TimedSample>) {
    forall x :: x in samples ==> DistinctGpus(x.sample)
  }

  lemma {:induction false} StoredDistinct(samples: seq<TimedSample>, logged: seq<TimedSample>, window: real)
    requires AllDistinct(samples) && AllDistinct(logged)
    ensures AllDistinct(Stored(samples, logged, window))
  {
    forall x | x in Stored(samples, logged, window)
      ensures DistinctGpus(x.sample)
    {
      if logged != [] { History.SinceSubset(samples + logged, Last(logged).timestamp - window, x); }
    }
  }

  lemma {:induction false} LoggedDistinct(before: World, step: Step, totals: Safety.Totals)
    requires NodeSafety.Inv(before, totals)
    ensures AllDistinct(Logged(before.node, step))
  {
  }

  /** In every reachable state each stored sample lists each GPU once. */
  lemma {:induction false} SamplesDistinct(steps: seq<Step>, w: World, totals: Safety.Totals, cfg: Config)
    requires RunSafety.Reached(steps, w, totals, cfg)
    ensures AllDistinct(w.node.samples)
    decreases |steps|
  {
    if steps != [] {
      var before: World :|
        RunSafety.Reached(Init(steps), before, totals, cfg) && Leads(before, Last(steps), w, totals, cfg);
      SamplesDistinct(Init(steps), before, totals, cfg);
      RunSafety.ReachedInv(Init(steps), before, totals, cfg);
      LoggedDistinct(before, Last(steps), totals);
      LedTo(before, Last(steps), w, totals, cfg);
      StoredDistinct(before.node.samples, Logged(before.node, Last(steps)), cfg.historyWindow);
    }
  }

  /** `peak` is the largest unmanaged memory of the GPU in the summaries, and zero if none is positive. */
  ghost predicate PeakOf(seen: seq<GpuSummary>, idx: int, peak: real) {
    && (forall i :: 0 <= i < |seen| ==> Below(seen[i], idx, peak))
    && (peak == 0.0 || exists i :: 0 <= i < |seen| && seen[i].gpuIndex == idx && UnmanagedMb(seen[i]) == peak)
  }

  lemma {:induction false} PeakOfLog(all: seq<TimedSample>, stored: seq<TimedSample>, window: real, clock: real,
        current: Sample, idx: int)
    requires History.NonDecreasing(all) && all != [] && Last(all).timestamp <= clock
    requires stored == History.Recorded(all, window)
    ensures PeakOf(Flat(History.Since(all, clock - window)) + current, idx,
                   Peak(Flat(History.Since(stored, clock - window)) + current, idx))
  {
    PeakOverFullLog(all, window, clock, window, current, idx);
  }

  lemma {:induction false} PeakInCycle(s: NodeState, log: seq<TimedSample>, input: CycleInput, cfg: Config, idx: int)
    requires s.inFlight.Some? && s.samples == History.Recorded(log, cfg.historyWindow)
    requires History.NonDecreasing(log + [s.inFlight.value]) && s.inFlight.value.timestamp <= input.clock
    ensures PeakMeasured(s, log, input, cfg, idx)
  {
    var snap := s.inFlight.value;
    RecordedStored(log, [snap], cfg.historyWindow);
    PeakOfLog(log + [snap], StoredHistory(s, cfg), cfg.historyWindow, input.clock, snap.sample, idx);
  }

  /** The peak in the GPU's ledger is the one of the logged snapshots in the window, and of the one in flight. */
  ghost predicate PeakMeasured(s: NodeState, log: seq<TimedSample>, input: CycleInput, cfg: Config, idx: int)
    requires s.inFlight.Some?
  {
    var view := ViewOf(s, input, cfg);
    var window := History.Since(log + [s.inFlight.value], input.clock - cfg.historyWindow);
    PeakOf(Flat(window) + view.current, idx, Peak(Flat(view.history) + view.current, idx))
  }

  /** In every cycle of every run with a clock that never goes back, the peak in a GPU's ledger is the maximum of its
      unmanaged memory over the run's own snapshots in the window, although most of them were pruned on the way. */
  lemma {:induction false} PeakOverRun(steps: seq<Step>, w: World, totals: Safety.Totals, cfg: Config,
        log: seq<TimedSample>, input: CycleInput, idx: int)
    requires ReachedLogging(steps, w, totals, cfg, log) && w.node.inFlight.Some?
    requires History.NonDecreasing(log + [w.node.inFlight.value]) && w.node.inFlight.value.timestamp <= input.clock
    ensures PeakMeasured(w.node, log, input, cfg, idx)
  {
    SamplesAreRecorded(steps, w, totals, cfg, log);
    PeakInCycle(w.node, log, input, cfg, idx);
  }
}
