/** The sliding window of recent GPU samples. */
module History {
  import opened Basics
  import opened Models

  /** The samples not older than `cutoff`, in order. */
  function Since(samples: seq<TimedSample>, cutoff: real): seq<TimedSample> {
    if samples == [] then []
    else
      var rest := Since(samples[..|samples| - 1], cutoff);
      var last := samples[|samples| - 1];
      if last.timestamp >= cutoff then rest + [last] else rest
  }

  /** `r` is what stands in `samples` at the places `at`: all places, in order, whose sample is not older than `cutoff`. */
  ghost predicate StandsAt(samples: seq<TimedSample>, r: seq<TimedSample>, cutoff: real, at: seq<int>) {
    && |at| == |r|
    && (forall i, j :: 0 <= i < j < |at| ==> at[i] < at[j])
    && (forall i :: 0 <= i < |at| ==> 0 <= at[i] < |samples| && samples[at[i]] == r[i])
    && (forall n :: n in at <==> 0 <= n < |samples| && samples[n].timestamp >= cutoff)
  }

  ghost predicate KeepsExactly(samples: seq<TimedSample>, r: seq<TimedSample>, cutoff: real) {
    exists at: seq<int> :: StandsAt(samples, r, cutoff, at)
  }

  /** `Since` keeps exactly the samples not older than the cutoff, as often and in the order they are stored. */
  lemma {:induction false} SinceMeans(samples: seq<TimedSample>, cutoff: real) returns (at: seq<int>)
    ensures StandsAt(samples, Since(samples, cutoff), cutoff, at)
    decreases |samples|
  {
    if samples == [] {
      at := [];
    } else {
      var n := |samples| - 1;
      var before := SinceMeans(samples[..n], cutoff);
      at := if samples[n].timestamp >= cutoff then before + [n] else before;
      assert samples == samples[..n] + [samples[n]];
      StandsSnoc(samples[..n], Since(samples[..n], cutoff), samples[n], cutoff, before);
    }
  }

  lemma {:induction false} StandsSnoc(samples: seq<TimedSample>, r: seq<TimedSample>, x: TimedSample, cutoff: real,
        at: seq<int>)
    requires StandsAt(samples, r, cutoff, at)
    ensures if x.timestamp >= cutoff then StandsAt(samples + [x], r + [x], cutoff, at + [|samples|])
            else StandsAt(samples + [x], r, cutoff, at)
  {
    var all := samples + [x];
    assert all[|samples|] == x && forall j :: 0 <= j < |samples| ==> all[j] == samples[j];
    assert forall i :: 0 <= i < |at| ==> at[i] in at;
    if x.timestamp >= cutoff {
      var more := at + [|samples|];
      forall n
        ensures n in more <==> 0 <= n < |all| && all[n].timestamp >= cutoff
      {
        assert n in more <==> n in at || n == |samples|;
      }
    }
  }

  /** What a tracker with window `window` stores after recording `log` from the start. */
  function Recorded(log: seq<TimedSample>, window: real): seq<TimedSample> {
    if log == [] then []
    else
      var last := log[|log| - 1];
      Since(Recorded(log[..|log| - 1], window) + [last], last.timestamp - window)
  }

  class GpuHistoryTracker {
    const windowSeconds: real
    var samples: seq<TimedSample>

    constructor (windowSeconds: real)
      ensures this.windowSeconds == windowSeconds && samples == []
    {
      this.windowSeconds := windowSeconds;
      samples := [];
    }

    method Record(timestamp: real, perGpu: Sample)
      modifies this
      ensures samples == Since(old(samples) + [TimedSample(timestamp, perGpu)], timestamp - windowSeconds)
      ensures forall log :: old(samples) == Recorded(log, windowSeconds) ==>
        samples == Recorded(log + [TimedSample(timestamp, perGpu)], windowSeconds)
    {
      samples := samples + [TimedSample(timestamp, perGpu)];
      Prune(timestamp);
      forall log | old(samples) == Recorded(log, windowSeconds)
        ensures samples == Recorded(log + [TimedSample(timestamp, perGpu)], windowSeconds)
      {
        var all := log + [TimedSample(timestamp, perGpu)];
        assert all[..|all| - 1] == log;
      }
    }

    method Prune(now: real)
      modifies this
      ensures samples == Since(old(samples), now - windowSeconds)
    {
      samples := Since(samples, now - windowSeconds);
    }

    method GetHistory(now: real, window: Option<real>) returns (r: seq<TimedSample>)
      ensures r == Since(samples, now - window.GetOr(windowSeconds))
      ensures KeepsExactly(samples, r, now - window.GetOr(windowSeconds))
    {
      r := Since(samples, now - window.GetOr(windowSeconds));
      ghost var at := SinceMeans(samples, now - window.GetOr(windowSeconds));
    }
  }

  // ---------------------------------------------------------------------------
  // The pruned list answers like the full log
  // ---------------------------------------------------------------------------

  ghost predicate NonDecreasing(log: seq<TimedSample>) {
    forall i, j :: 0 <= i <= j < |log| ==> log[i].timestamp <= log[j].timestamp
  }

  lemma {:induction false} SinceSnoc(s: seq<TimedSample>, x: TimedSample, cutoff: real)
    ensures Since(s + [x], cutoff) == if x.timestamp >= cutoff then Since(s, cutoff) + [x] else Since(s, cutoff)
  {
  }

  lemma {:induction false} SinceTwice(s: seq<TimedSample>, a: real, b: real)
    requires a <= b
    ensures Since(Since(s, a), b) == Since(s, b)
    decreases |s|
  {
    if s != [] {
      var front, last := s[..|s| - 1], s[|s| - 1];
      SinceTwice(front, a, b);
      SinceSnoc(Since(front, a), last, b);
    }
  }

  lemma {:induction false} SinceSubset(s: seq<TimedSample>, cutoff: real, x: TimedSample)
    requires x in Since(s, cutoff)
    ensures x in s
    decreases |s|
  {
    if s != [] && x in Since(s[..|s| - 1], cutoff) {
      SinceSubset(s[..|s| - 1], cutoff, x);
    }
  }

  lemma {:induction false} SinceKeeps(s: seq<TimedSample>, cutoff: real, x: TimedSample)
    requires x in s && x.timestamp >= cutoff
    ensures x in Since(s, cutoff)
    decreases |s|
  {
    if x != s[|s| - 1] { SinceKeeps(s[..|s| - 1], cutoff, x); }
  }

  /** For record times that never go back, a query not before the last record and a window no longer than the
      tracker's own, the pruned list gives exactly what filtering everything ever recorded would. */
  lemma {:induction false} WindowEqualsFullLog(log: seq<TimedSample>, trackerWindow: real, now: real, window: real)
    requires NonDecreasing(log) && window <= trackerWindow
    requires log != [] ==> log[|log| - 1].timestamp <= now
    ensures Since(Recorded(log, trackerWindow), now - window) == Since(log, now - window)
    decreases |log|
  {
    if log != [] {
      var front, last := log[..|log| - 1], log[|log| - 1];
      FrontNonDecreasing(log);
      WindowEqualsFullLog(front, trackerWindow, now, window);
      var stored := Recorded(front, trackerWindow);
      SinceTwice(stored + [last], last.timestamp - trackerWindow, now - window);
      SinceSnoc(stored, last, now - window);
    }
  }

  lemma {:induction false} FrontNonDecreasing(log: seq<TimedSample>)
    requires NonDecreasing(log) && log != []
    ensures NonDecreasing(log[..|log| - 1])
    ensures |log| > 1 ==> log[|log| - 2].timestamp <= log[|log| - 1].timestamp
  {
  }
}
