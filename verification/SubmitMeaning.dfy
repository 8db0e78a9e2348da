/** When a submission is accepted, in plain numbers, and what acceptance and refusal mean for the task later. */
module SubmitMeaning {
  import opened Basics
  import opened Models
  import opened OrderedDicts
  import opened QueueSpec
  import opened Attribution
  import opened Scheduling
  import opened SchedulingFacts
  import opened Node
  import NodeSafety

  /** The amount a shared spec asks for on each GPU. */
  function AskedMb(spec: TaskSpec): int {
    if spec.requestedVramMb.Some? then spec.requestedVramMb.value else spec.requireVramMb
  }

  /** The cards of which 0.98 holds the amount; all of them if nothing is asked for. */
  function AbleFrom(cards: Sample, mb: int, k: nat): set<int> {
    set i | k <= i < |cards| && (mb <= 0 || 0.98 * cards[i].totalMb >= mb as real)
  }

  function Able(cards: Sample, mb: int): set<int> {
    AbleFrom(cards, mb, 0)
  }

  /** The last sample lists cards, but too few, or too few that are large enough. */
  predicate TooMuch(last: Option<Sample>, spec: TaskSpec) {
    && last.Some? && last.value != []
    && (spec.requireGpuCount > |last.value|
        || (spec.vramMode.Shared? && AskedMb(spec) > 0 && |Able(last.value, AskedMb(spec))| < spec.requireGpuCount))
  }

  predicate AsksNegative(spec: TaskSpec) {
    spec.vramMode.Shared? && AskedMb(spec) < 0
  }

  lemma {:induction false} CapableFrom(cards: Sample, mb: int, k: nat)
    requires mb > 0 && k <= |cards|
    ensures Capable(cards[k..], mb) == |AbleFrom(cards, mb, k)|
    decreases |cards| - k
  {
    if k < |cards| {
      CapableFrom(cards, mb, k + 1);
      assert cards[k..][1..] == cards[k + 1..];
      var here: set<int> := if 0.98 * cards[k].totalMb >= mb as real then {k} else {};
      assert AbleFrom(cards, mb, k) == here + AbleFrom(cards, mb, k + 1);
    }
  }

  lemma {:induction false} PossibleMeans(cards: Sample, spec: TaskSpec)
    requires cards != []
    ensures var n := Normalized(spec);
      !RequestPossible(cards, n.requireGpuCount, n.requireVramMb, n.vramMode) <==> TooMuch(Some(cards), spec)
  {
    if AskedMb(spec) > 0 {
      CapableFrom(cards, AskedMb(spec), 0);
      assert cards[0..] == cards;
    }
  }

  /** Whether the step queues the task. */
  ghost predicate Accepted(s: NodeState, spec: TaskSpec, id: TaskId, now: real, cfg: Config)
    requires QueueInv(s.q) && id !in s.q.Ids()
  {
    id in Do(s, SubmitStep(spec, id, now), cfg).q.queued.vals
  }

  /** A submission is refused with one error if the last sample's cards are too few or too small, else with another if a
      shared task asks for a negative amount, and then changes nothing; otherwise the task is queued. */
  lemma {:induction false} SubmitExactly(s: NodeState, spec: TaskSpec, id: TaskId, now: real, cfg: Config)
    requires QueueInv(s.q) && id !in s.q.Ids()
    ensures SubmitErrorOf(s, spec) ==
      if TooMuch(s.lastPerGpu, spec) then Some(CanNeverFit) else if AsksNegative(spec) then Some(NegativeVram) else None
    ensures Accepted(s, spec, id, now, cfg) <==> !TooMuch(s.lastPerGpu, spec) && !AsksNegative(spec)
    ensures !Accepted(s, spec, id, now, cfg) ==> Do(s, SubmitStep(spec, id, now), cfg) == s
  {
    ErrorExactly(s, spec);
    if SubmitErrorOf(s, spec).None? { NodeSafety.SubmitPlaces(s.q, Normalized(spec), id, now); }
  }

  lemma {:induction false} ErrorExactly(s: NodeState, spec: TaskSpec)
    ensures SubmitErrorOf(s, spec) ==
      if TooMuch(s.lastPerGpu, spec) then Some(CanNeverFit) else if AsksNegative(spec) then Some(NegativeVram) else None
  {
    if s.lastPerGpu.Some? && s.lastPerGpu.value != [] { PossibleMeans(s.lastPerGpu.value, spec); }
  }

  /** An exclusive task is refused exactly if it asks for more GPUs than the last sample lists cards. */
  lemma {:induction false} ExclusiveAccepted(s: NodeState, spec: TaskSpec, id: TaskId, now: real, cfg: Config)
    requires QueueInv(s.q) && id !in s.q.Ids() && spec.vramMode.ExclusiveAuto?
    ensures Accepted(s, spec, id, now, cfg) <==>
      s.lastPerGpu.None? || s.lastPerGpu.value == [] || spec.requireGpuCount <= |s.lastPerGpu.value|
  {
    SubmitExactly(s, spec, id, now, cfg);
  }

  /** `t` asks for what the shared spec asks for. */
  predicate AsksLike(t: Task, spec: TaskSpec) {
    t.vramMode.Shared? && t.requestedVramMb.GetOr(t.requireVramMb) == AskedMb(spec)
    && t.requireGpuCount == spec.requireGpuCount
  }

  /** A shared task that asks for nothing negative is accepted exactly if it would get its GPUs on the cards of the last
      sample with nothing running on them. */
  lemma {:induction false} SharedAccepted(s: NodeState, spec: TaskSpec, id: TaskId, now: real, cfg: Config, t: Task)
    requires QueueInv(s.q) && id !in s.q.Ids() && AsksLike(t, spec) && spec.vramMode.Shared? && AskedMb(spec) >= 0
    requires s.lastPerGpu.Some? && s.lastPerGpu.value != []
    ensures Accepted(s, spec, id, now, cfg) <==> View(EmptyNode(s.lastPerGpu.value), []).PickFor(t, NO_PENDING).Some?
  {
    var cards := s.lastPerGpu.value;
    SubmitExactly(s, spec, id, now, cfg);
    PossibleMeans(cards, spec);
    if Accepted(s, spec, id, now, cfg) {
      AcceptedAdmittedWhenEmpty(cards, spec.requireGpuCount, AskedMb(spec));
    } else {
      RefusedNeverAdmitted(cards, spec.requireGpuCount, AskedMb(spec), View(EmptyNode(cards), []), NO_PENDING);
    }
  }

  /** A shared task that is refused for its size would get no GPUs on these cards, whatever runs on them and whatever the
      batch has reserved. */
  lemma {:induction false} RefusedIsHopeless(s: NodeState, spec: TaskSpec, t: Task, view: View, p: Pending)
    requires spec.vramMode.Shared? && AsksLike(t, spec) && SubmitErrorOf(s, spec) == Some(CanNeverFit)
    requires SameTotals(s.lastPerGpu.GetOr([]), view.current) && forall g :: MapGet(p.shared, g) >= 0.0
    ensures view.PickFor(t, p).None?
  {
    var cards := s.lastPerGpu.value;
    ErrorExactly(s, spec);
    PossibleMeans(cards, spec);
    RefusedNeverAdmitted(cards, spec.requireGpuCount, AskedMb(spec), view, p);
  }
}
