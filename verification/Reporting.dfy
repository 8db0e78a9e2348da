/** Each task that ends is reported exactly once, unless the cap drops it first or a cancel reaches it after its
    report. */
module Reporting {
  import opened Basics
  import opened Models
  import opened OrderedDicts
  import opened QueueSpec
  import opened Node
  import opened Runs
  import opened TickMeaning
  import RunSafety
  import NodeSafety
  import Safety

  /** A terminal task that some report already carried. */
  predicate Carried(q: QueueState, id: TaskId) {
    id in q.terminal.vals && q.terminal.vals[id].reportedSinceTerminal
  }

  /** A cancel that arrives when the task has ended and was reported: it rewrites the record and clears the flag. */
  predicate LateCancel(w: World, step: Step) {
    step.CancelStep? && Carried(w.node.q, step.id)
  }

  function Times(w: World, id: TaskId): nat {
    multiset(w.reported)[id]
  }

  ghost predicate Active(w: World, id: TaskId) {
    id in w.node.q.queued.vals || id in w.node.q.Live()
  }

  /** What the reports of one task add up to when `late` cancels found it ended and reported. Nothing while it is queued
      or live; once for its end and once for each such cancel, except that the last of these may still wait for its
      report or have been dropped by the cap. */
  ghost predicate Account(w: World, id: TaskId, late: nat) {
    && QueueInv(w.node.q)
    && (id in w.node.q.Ids() ==> id in w.issued && id !in w.evicted)
    && (id !in w.issued || Active(w, id) ==> Times(w, id) == 0 && late == 0 && id !in w.evicted)
    && (id in w.node.q.terminal.vals ==> Times(w, id) + (if Carried(w.node.q, id) then 0 else 1) == late + 1)
    && (id in w.issued && id !in w.node.q.Ids() ==> Times(w, id) + (if id in w.evicted then 1 else 0) == late + 1)
  }

  // ---------------------------------------------------------------------------
  // Tick
  // ---------------------------------------------------------------------------

  lemma {:induction false} CandidatesDistinct(q: QueueState)
    requires QueueInv(q)
    ensures NoDup(Candidates(q))
    ensures forall id :: id in Candidates(q) <==>
      Verdict(q, id).Some? || (id in q.terminal.vals && !q.terminal.vals[id].reportedSinceTerminal)
  {
    TickCorrect(q);
    var waiting := UnreportedIds(q.terminal.order, q.terminal.vals);
    forall id | id in waiting
      ensures id !in Tick(q).1
    {
      assert id in q.terminal.vals;
      assert Verdict(q, id).Some? ==> id in q.Live();
    }
    ConcatNoDup(waiting, Tick(q).1);
  }

  lemma {:induction false} SplitDistinct(all: seq<TaskId>, n: nat, id: TaskId)
    requires NoDup(all) && n <= |all|
    ensures id in all <==> id in all[..n] || id in all[n..]
    ensures !(id in all[..n] && id in all[n..])
  {
    assert all == all[..n] + all[n..];
    forall i, j | 0 <= i < n <= j < |all|
      ensures all[i] != all[j]
    {
      assert Apart(all, i, j);
    }
  }

  /** How many candidates the cap drops. */
  function Overflow(q: QueueState): (n: nat)
    requires QueueInv(q)
    ensures n <= |Candidates(q)|
  {
    if |Candidates(q)| > MAX_TERMINAL then |Candidates(q)| - MAX_TERMINAL else 0
  }

  lemma {:induction false} KeptPlaces(q: QueueState, id: TaskId)
    requires QueueInv(q)
    ensures id in Tick(q).0.terminal.vals <==> id in Candidates(q)[Overflow(q)..]
  {
    TickCorrect(q);
    assert id in Tick(q).0.terminal.order <==> id in Tick(q).0.terminal.vals;
  }

  lemma {:induction false} TerminalPlaces(q: QueueState, id: TaskId)
    requires QueueInv(q)
    ensures id in EvictedBy(q) || id in Tick(q).0.terminal.vals <==> id in Candidates(q)
    ensures !(id in EvictedBy(q) && id in Tick(q).0.terminal.vals)
    ensures id in Tick(q).0.terminal.vals ==> !Tick(q).0.terminal.vals[id].reportedSinceTerminal
  {
    KeptPlaces(q, id);
    if id in Tick(q).0.terminal.vals { KeptAreUnreported(q, id); }
    CandidatesDistinct(q);
    SplitDistinct(Candidates(q), Overflow(q), id);
    assert id in EvictedBy(q) <==> id in Candidates(q)[..Overflow(q)];
  }

  lemma {:induction false} LivePlaces(q: QueueState, id: TaskId)
    requires QueueInv(q)
    ensures Tick(q).0.queued == q.queued
    ensures id in Tick(q).0.Live() <==> id in q.Live() && Verdict(q, id).None?
    ensures Verdict(q, id).Some? ==> id in q.Live()
  {
    TickCorrect(q);
    assert id in Elems(Tick(q).1) <==> Verdict(q, id).Some?;
  }

  /** After a tick a task is where it was, or has ended and waits unreported, or was dropped: as already reported, or
      by the cap. */
  lemma {:induction false} TickPlaces(q: QueueState, id: TaskId)
    requires QueueInv(q)
    ensures var r := Tick(q).0;
      && !Carried(r, id)
      && (id in r.Ids() ==> id in q.Ids() && id !in EvictedBy(q))
      && (id in r.terminal.vals ==> !Carried(q, id))
      && (id in q.Ids() ==> id in r.Ids() || id in EvictedBy(q) || Carried(q, id))
      && (id in EvictedBy(q) ==> id in q.Ids() && !Carried(q, id))
      && (id in r.Live() ==> id in q.Live()) && (id in r.queued.vals ==> id in q.queued.vals)
  {
    TerminalPlaces(q, id);
    LivePlaces(q, id);
    CandidatesDistinct(q);
  }

  lemma {:induction false} TickKeepsAccount(w: World, at: QueueState, w': World, id: TaskId, late: nat)
    requires Account(w, id, late) && QueueInv(at)
    requires at == w.node.q.(completions := at.completions, runtimes := at.runtimes)
    requires w' == w.(node := w'.node, evicted := w.evicted + EvictedBy(at)) && w'.node.q == Tick(at).0
    ensures Account(w', id, late) && !Carried(w'.node.q, id)
  {
    assert at.Ids() == w.node.q.Ids() && at.Live() == w.node.q.Live();
    TickPlaces(at, id);
  }

  // ---------------------------------------------------------------------------
  // The other steps
  // ---------------------------------------------------------------------------

  /** The task is still where it was, or it was active and is now, if not, ended and unreported. */
  lemma {:induction false} MoveKeepsAccount(w: World, w': World, id: TaskId, late: nat)
    requires Account(w, id, late) && QueueInv(w'.node.q) && w' == w.(node := w'.node)
    requires id in w'.node.q.Ids() <==> id in w.node.q.Ids()
    requires id in w.node.q.terminal.vals ==> id in w'.node.q.terminal.vals
    requires id in w'.node.q.terminal.vals ==> (Carried(w'.node.q, id) <==> Carried(w.node.q, id))
    ensures Account(w', id, late)
  {
  }

  /** Cancelling an ended task moves nothing and leaves that task unreported. */
  lemma {:induction false} CancelEnded(q: QueueState, id: TaskId, now: real)
    requires QueueInv(q) && id in q.terminal.vals
    ensures var r := Cancel(q, id, now);
      && r.queued.vals == q.queued.vals && r.Live() == q.Live() && r.Ids() == q.Ids()
      && r.terminal.vals.Keys == q.terminal.vals.Keys && !Carried(r, id)
      && (forall k :: k != id ==> (Carried(r, k) <==> Carried(q, k)))
  {
    assert q.Get(id) == Some(q.terminal.vals[id]) && q.terminal.vals[id].id == id;
    NodeSafety.CancelLive(q, id, now);
    assert q.queued.vals - {id} == q.queued.vals;
    assert q.Live() - {id} == q.Live();
  }

  /** Cancelling an active task ends it unreported. */
  lemma {:induction false} CancelActive(q: QueueState, id: TaskId, now: real)
    requires QueueInv(q) && q.Get(id).Some? && id !in q.terminal.vals
    ensures var r := Cancel(q, id, now);
      && r.Ids() == q.Ids() && r.terminal.vals.Keys == q.terminal.vals.Keys + {id}
      && (forall k :: Carried(r, k) <==> Carried(q, k))
  {
    assert q.Get(id).value.id == id;
    NodeSafety.CancelLive(q, id, now);
  }

  lemma {:induction false} CancelKeepsAccount(w: World, cancelled: TaskId, now: real, cfg: Config, id: TaskId, late: nat)
    requires Account(w, id, late)
    ensures Account(Next(w, CancelStep(cancelled, now), cfg), id, late + Late(w, CancelStep(cancelled, now), id))
  {
    var q, w' := w.node.q, Next(w, CancelStep(cancelled, now), cfg);
    assert w' == w.(node := w.node.(q := Cancel(q, cancelled, now)));
    if cancelled in q.terminal.vals {
      CancelEnded(q, cancelled, now);
    } else if q.Get(cancelled).Some? {
      CancelActive(q, cancelled, now);
      MoveKeepsAccount(w, w', id, late);
    }
  }

  lemma {:induction false} SubmitKeepsAccount(w: World, spec: TaskSpec, submitted: TaskId, now: real, cfg: Config,
        id: TaskId, late: nat)
    requires Account(w, id, late) && submitted !in w.issued && submitted !in w.node.q.Ids()
    ensures Account(Next(w, SubmitStep(spec, submitted, now), cfg), id, late)
  {
    if SubmitErrorOf(w.node, spec).None? {
      AcceptedKeepsAccount(w, spec, submitted, now, cfg, id, late);
    } else {
      MoveKeepsAccount(w, Next(w, SubmitStep(spec, submitted, now), cfg), id, late);
    }
  }

  lemma {:induction false} AcceptedKeepsAccount(w: World, spec: TaskSpec, submitted: TaskId, now: real, cfg: Config,
        id: TaskId, late: nat)
    requires Account(w, id, late) && submitted !in w.issued && submitted !in w.node.q.Ids()
    requires SubmitErrorOf(w.node, spec).None?
    ensures Account(Next(w, SubmitStep(spec, submitted, now), cfg), id, late)
  {
    NodeSafety.SubmitPlaces(w.node.q, Normalized(spec), submitted, now);
    assert Next(w, SubmitStep(spec, submitted, now), cfg).evicted == w.evicted;
  }

  lemma {:induction false} QuietStepKeepsAccount(w: World, step: Step, cfg: Config, id: TaskId, late: nat)
    requires Account(w, id, late)
    requires step.PriorityStep? || step.ConfirmStep? || step.MonitorStep? || step.SnapshotStep?
    ensures Account(Next(w, step, cfg), id, late)
  {
    var w' := Next(w, step, cfg);
    assert w'.evicted == w.evicted;
    if step.ConfirmStep? && step.id in w.node.q.reserved.vals {
      RunSafety.StartIds(w.node.q, step.id, step.pid, step.now);
    }
    if step.PriorityStep? && step.id in w.node.q.queued.vals {
      assert w'.node.q.Live() == w.node.q.Live();
    }
    MoveKeepsAccount(w, w', id, late);
  }

  lemma {:induction false} CountOfDistinct(s: seq<TaskId>, id: TaskId)
    requires NoDup(s)
    ensures multiset(s)[id] == if id in s then 1 else 0
  {
    if s != [] {
      TailNoDup(s);
      CountOfDistinct(s[1..], id);
      assert s == [s[0]] + s[1..];
    }
  }

  lemma {:induction false} MarkingKeepsAccount(w: World, w': World, id: TaskId, late: nat)
    requires Account(w, id, late) && !Carried(w.node.q, id)
    requires w' == w.(node := w'.node, reported := w.reported + w.node.q.terminal.order)
    requires w'.node.q == MarkReported(w.node.q)
    ensures Account(w', id, late)
  {
    var q, q' := w.node.q, w'.node.q;
    CountOfDistinct(q.terminal.order, id);
    assert multiset(w'.reported) == multiset(w.reported) + multiset(q.terminal.order);
    assert q'.Live() == q.Live() && q'.Ids() == q.Ids();
  }

  /** Between its tick and its report a cycle neither ends nor adds a task. */
  lemma {:induction false} CyclePlaces(s: NodeState, input: CycleInput, cfg: Config)
    requires QueueInv(s.q) && s.inFlight.Some?
    ensures var t := Tick(s.q.(completions := s.q.completions + input.exits)).0; var r := Launched(s, input, cfg).0;
      r.Ids() == t.Ids() && r.terminal == t.terminal
  {
    var t := Tick(s.q.(completions := s.q.completions + input.exits)).0;
    var before := BeforeScheduling(s, input);
    assert before.Ids() == t.Ids() && before.terminal == t.terminal;
    RunSafety.LaunchIds(before, DecisionsOf(s, input, cfg), input.pids, input.clock, cfg);
  }

  lemma {:induction false} LaunchKeepsAccount(w: World, w': World, id: TaskId, late: nat)
    requires Account(w, id, late) && QueueInv(w'.node.q)
    requires w' == w.(node := w'.node, batch := w'.batch, admitted := w'.admitted)
    requires w'.node.q.Ids() == w.node.q.Ids() && w'.node.q.terminal == w.node.q.terminal
    ensures Account(w', id, late)
  {
  }

  lemma {:induction false} CycleKeepsAccount(w: World, input: CycleInput, cfg: Config, id: TaskId, late: nat)
    requires Account(w, id, late) && w.node.inFlight.Some?
    ensures Account(Next(w, CycleStep(input), cfg), id, late)
  {
    var w' := Next(w, CycleStep(input), cfg);
    var at := w.node.q.(completions := w.node.q.completions + input.exits);
    var w1 := w.(node := w.node.(q := Tick(at).0), evicted := w.evicted + EvictedBy(at));
    TickKeepsAccount(w, at, w1, id, late);
    CyclePlaces(w.node, input, cfg);
    var q3 := Launched(w.node, input, cfg).0;
    var w3 := w1.(node := w'.node.(q := q3), batch := w'.batch, admitted := w'.admitted);
    LaunchKeepsAccount(w1, w3, id, late);
    if Launched(w.node, input, cfg).1 {
      MarkingKeepsAccount(w3, w', id, late);
    } else {
      assert w.reported + [] == w.reported;
      assert w' == w3;
    }
  }

  lemma {:induction false} TickStepKeepsAccount(w: World, step: Step, cfg: Config, id: TaskId, late: nat)
    requires Account(w, id, late) && (step.FinishStep? || step.FailStep?)
    ensures Account(Next(w, step, cfg), id, late)
  {
    var at := AtTick(w.node, step);
    if at.Some? {
      TickKeepsAccount(w, at.value, Next(w, step, cfg), id, late);
    } else {
      MoveKeepsAccount(w, Next(w, step, cfg), id, late);
    }
  }

  /** 1 if the step is a late cancel of this task. */
  function Late(w: World, step: Step, id: TaskId): nat {
    if LateCancel(w, step) && step.id == id then 1 else 0
  }

  /** Each step keeps the account of each task, and a late cancel of the task adds one to it. */
  lemma {:induction false} NextKeepsAccount(w: World, step: Step, w': World, totals: Safety.Totals, cfg: Config, id: TaskId,
        late: nat)
    requires Account(w, id, late) && Leads(w, step, w', totals, cfg)
    ensures Account(w', id, late + Late(w, step, id))
  {
    match step {
      case SubmitStep(spec, submitted, now) => SubmitKeepsAccount(w, spec, submitted, now, cfg, id, late);
      case CancelStep(cancelled, now) => CancelKeepsAccount(w, cancelled, now, cfg, id, late);
      case FinishStep(_, _, _) => TickStepKeepsAccount(w, step, cfg, id, late);
      case FailStep(_, _) => TickStepKeepsAccount(w, step, cfg, id, late);
      case CycleStep(input) => CycleKeepsAccount(w, input, cfg, id, late);
      case _ => QuietStepKeepsAccount(w, step, cfg, id, late);
    }
  }

  // ---------------------------------------------------------------------------
  // Runs
  // ---------------------------------------------------------------------------

  /** As `RunSafety.Reached`, with `late` late cancels of this task on the way. */
  ghost predicate ReachedWith(steps: seq<Step>, w: World, totals: Safety.Totals, cfg: Config, id: TaskId, late: nat)
    decreases |steps|
  {
    if steps == [] then w == START && late == 0
    else exists before: World, earlier: nat ::
      && ReachedWith(Init(steps), before, totals, cfg, id, earlier) && Leads(before, Last(steps), w, totals, cfg)
      && late == earlier + Late(before, Last(steps), id)
  }

  /** Every run has some number of late cancels of the task. */
  lemma {:induction false} EveryRunCounts(steps: seq<Step>, w: World, totals: Safety.Totals, cfg: Config, id: TaskId)
    returns (late: nat)
    requires RunSafety.Reached(steps, w, totals, cfg)
    ensures ReachedWith(steps, w, totals, cfg, id, late)
    decreases |steps|
  {
    if steps == [] {
      late := 0;
    } else {
      var before: World :|
        RunSafety.Reached(Init(steps), before, totals, cfg) && Leads(before, Last(steps), w, totals, cfg);
      var earlier := EveryRunCounts(Init(steps), before, totals, cfg, id);
      late := earlier + Late(before, Last(steps), id);
    }
  }

  lemma {:induction false} ReachedAccount(steps: seq<Step>, w: World, totals: Safety.Totals, cfg: Config, id: TaskId,
        late: nat)
    requires ReachedWith(steps, w, totals, cfg, id, late)
    ensures Account(w, id, late)
    decreases |steps|
  {
    if steps == [] {
      EmptyQueueInv();
      assert START.node.q.Ids() == {};
    } else {
      var before: World, earlier: nat :|
        && ReachedWith(Init(steps), before, totals, cfg, id, earlier) && Leads(before, Last(steps), w, totals, cfg)
        && late == earlier + Late(before, Last(steps), id);
      ReachedAccount(Init(steps), before, totals, cfg, id, earlier);
      NextKeepsAccount(before, Last(steps), w, totals, cfg, id, earlier);
    }
  }

  /** THE ACCOUNT. Over any run, an accepted task has been reported as ended: not at all while it is queued, reserved or
      running; and else once, plus once for each cancel that found it ended and reported, less one if its record still
      waits for its report or was dropped by the cap before it. */
  lemma {:induction false} ReportsAddUp(steps: seq<Step>, w: World, totals: Safety.Totals, cfg: Config, id: TaskId,
        late: nat)
    requires ReachedWith(steps, w, totals, cfg, id, late) && id in w.issued
    ensures var q := w.node.q;
      && (id in q.queued.vals || id in q.Live() ==> Times(w, id) == 0 && late == 0)
      && (id in q.terminal.vals ==> Times(w, id) == late + (if q.terminal.vals[id].reportedSinceTerminal then 1 else 0))
      && (id !in q.Ids() ==> Times(w, id) == late + (if id in w.evicted then 0 else 1))
  {
    ReachedAccount(steps, w, totals, cfg, id, late);
  }

  /** The task has ended, nothing of it waits for a report and the cap dropped nothing of it. */
  ghost predicate Closed(w: World, id: TaskId)
    requires QueueInv(w.node.q)
  {
    id in w.issued && id !in w.evicted && (Carried(w.node.q, id) || id !in w.node.q.Ids())
  }

  /** EXACTLY ONCE, exactly. Over any run, a task that has ended, waits for no report and was not dropped by the cap has
      been reported exactly once if and only if no cancel found it ended and reported. */
  lemma {:induction false} ReportedExactlyOnce(steps: seq<Step>, w: World, totals: Safety.Totals, cfg: Config,
        id: TaskId, late: nat)
    requires ReachedWith(steps, w, totals, cfg, id, late) && QueueInv(w.node.q) && Closed(w, id)
    ensures Times(w, id) == 1 <==> late == 0
    ensures Times(w, id) >= 1
  {
    ReachedAccount(steps, w, totals, cfg, id, late);
  }

  /** AT MOST ONCE. Without such a cancel of the task there is never more than one report, whatever happens to it or to
      the others. */
  lemma {:induction false} ReportedAtMostOnce(steps: seq<Step>, w: World, totals: Safety.Totals, cfg: Config, id: TaskId)
    requires ReachedWith(steps, w, totals, cfg, id, 0)
    ensures Times(w, id) <= 1
    ensures id in w.issued && id !in w.node.q.Ids() ==> Times(w, id) == 1 || id in w.evicted
  {
    ReachedAccount(steps, w, totals, cfg, id, 0);
  }

  // ---------------------------------------------------------------------------
  // After a late cancel
  // ---------------------------------------------------------------------------

  /** The cycle completes, and the cap of its tick does not drop the task. */
  ghost predicate Reports(w: World, id: TaskId, input: CycleInput, cfg: Config)
    requires QueueInv(w.node.q)
  {
    w.node.inFlight.Some? && Launched(w.node, input, cfg).1
    && id !in EvictedBy(w.node.q.(completions := w.node.q.completions + input.exits))
  }

  /** A completed cycle leaves nothing waiting: what is kept is carried. */
  lemma {:induction false} CompletedCarries(w: World, id: TaskId, input: CycleInput, cfg: Config)
    requires QueueInv(w.node.q) && Reports(w, id, input, cfg) && id in w.node.q.terminal.vals && !Carried(w.node.q, id)
    ensures Carried(Next(w, CycleStep(input), cfg).node.q, id)
  {
    var at := w.node.q.(completions := w.node.q.completions + input.exits);
    TickPlaces(at, id);
    TerminalPlaces(at, id);
    CandidatesDistinct(at);
    CyclePlaces(w.node, input, cfg);
  }

  /** The guard decides what the next report says: after any run without a late cancel of the task, let a cancel of it be
      followed by a cycle that completes and does not drop it. Then it has been reported twice if and only if the cancel
      found it ended and reported. */
  lemma {:induction false} LateCancelExactly(steps: seq<Step>, w: World, totals: Safety.Totals, cfg: Config, id: TaskId,
        now: real, input: CycleInput)
    requires ReachedWith(steps, w, totals, cfg, id, 0) && QueueInv(w.node.q)
    requires Reports(Next(w, CancelStep(id, now), cfg), id, input, cfg)
    ensures var cancelled := Next(w, CancelStep(id, now), cfg);
      Times(Next(cancelled, CycleStep(input), cfg), id) == 2 <==> LateCancel(w, CancelStep(id, now))
  {
    var step := CancelStep(id, now);
    var cancelled := Next(w, step, cfg);
    ReachedAccount(steps, w, totals, cfg, id, 0);
    CancelKeepsAccount(w, id, now, cfg, id, 0);
    CycleKeepsAccount(cancelled, input, cfg, id, Late(w, step, id));
    if LateCancel(w, step) {
      CancelEnded(w.node.q, id, now);
      CompletedCarries(cancelled, id, input, cfg);
    }
  }

  // ---------------------------------------------------------------------------
  // A run that reports a task twice
  // ---------------------------------------------------------------------------

  const NO_INPUT := CycleInput([], 0.0, 0.0, map[])

  lemma {:induction false} IdleTick(q: QueueState)
    requires QueueInv(q) && q.reserved == Empty<Task>() && q.running == Empty<Task>()
    requires q.completions == [] && q.runtimes == [] && |q.terminal.order| <= MAX_TERMINAL
    ensures Tick(q).0 == q.(terminal := Unreported(q.terminal))
  {
    UnreportedShorter(q.terminal.order, q.terminal.vals);
  }

  /** A cycle on a node where nothing is queued or live only reports what is terminal and not yet reported. */
  lemma {:induction false} IdleCycle(w: World, cfg: Config)
    requires QueueInv(w.node.q) && w.node.inFlight.Some?
    requires w.node.q.queued == Empty<Task>() && w.node.q.reserved == Empty<Task>() && w.node.q.running == Empty<Task>()
    requires w.node.q.completions == [] && w.node.q.runtimes == [] && |w.node.q.terminal.order| <= MAX_TERMINAL
    ensures var w', left := Next(w, CycleStep(NO_INPUT), cfg), Unreported(w.node.q.terminal);
      && w'.reported == w.reported + left.order
      && w'.node.q == w.node.q.(terminal := Marked(left))
  {
    var q := w.node.q;
    assert q.completions + [] == q.completions;
    IdleTick(q);
    var r := BeforeScheduling(w.node, NO_INPUT);
    assert r.running == Empty<Task>();
    assert r.queued.Values() == [];
    assert DecisionsOf(w.node, NO_INPUT, cfg) == [];
  }

  lemma {:induction false} UnreportedShorter(order: seq<TaskId>, vals: map<TaskId, Task>)
    requires forall k :: k in order ==> k in vals
    ensures |UnreportedIds(order, vals)| <= |order|
  {
    if order != [] {
      UnreportedShorter(order[1..], vals);
    }
  }

  lemma {:induction false} LateCancelStep(w: World, id: TaskId, cfg: Config)
    requires QueueInv(w.node.q) && w.node.q.terminal.order == [id]
    requires w.node.q.queued == Empty<Task>() && w.node.q.reserved == Empty<Task>() && w.node.q.running == Empty<Task>()
    ensures var w' := Next(w, CancelStep(id, 0.0), cfg);
      && w'.node == w.node.(q := w.node.q.(terminal := w'.node.q.terminal)) && w'.reported == w.reported
      && w'.node.q.terminal.order == [id] && !w'.node.q.terminal.vals[id].reportedSinceTerminal
  {
    assert id in w.node.q.terminal.order && id in w.node.q.terminal.vals;
    assert w.node.q.Get(id) == Some(w.node.q.terminal.vals[id]);
    PopAbsent(w.node.q.queued, id);
    PopAbsent(w.node.q.reserved, id);
    PopAbsent(w.node.q.running, id);
  }

  /** Nothing is queued or live, and `id` is the only finished task kept. */
  ghost predicate OnlyFinished(q: QueueState, id: TaskId) {
    && QueueInv(q)
    && q.queued == Empty<Task>() && q.reserved == Empty<Task>() && q.running == Empty<Task>()
    && q.terminal.order == [id] && q.completions == [] && q.runtimes == []
  }

  /** Cancelling the only task left, finished or not yet started, has it reported in the next cycle, however often it
      was reported before. */
  lemma {:induction false} CycleReportsUnreported(w: World, id: TaskId, cfg: Config)
    requires OnlyFinished(w.node.q, id) && !w.node.q.terminal.vals[id].reportedSinceTerminal
    ensures var w' := Next(Next(w, SnapshotStep([], [], 0.0), cfg), CycleStep(NO_INPUT), cfg);
      w'.reported == w.reported + [id] && OnlyFinished(w'.node.q, id) && Carried(w'.node.q, id)
  {
    var w1 := Next(w, SnapshotStep([], [], 0.0), cfg);
    var d := w1.node.q.terminal;
    OneUnreported(d, id);
    IdleCycle(w1, cfg);
  }

  lemma {:induction false} OneUnreported(d: OrderedDict<Task>, id: TaskId)
    requires d.Valid() && d.order == [id] && !d.vals[id].reportedSinceTerminal
    ensures Unreported(d).order == [id]
  {
    assert d.order[1..] == [];
    assert UnreportedIds([], d.vals) == [];
  }

  function SmallTask(): TaskSpec {
    TaskSpec(Background, 0, Some(0), Shared, 1, None, 10)
  }

  lemma {:induction false} SubmitThenCancel(cfg: Config)
    ensures EMPTY_QUEUE.Ids() == {}
    ensures QueueInv(EMPTY_QUEUE)
    ensures var w1 := Next(START, SubmitStep(SmallTask(), "a", 0.0), cfg);
      && QueueInv(w1.node.q) && w1.reported == [] && w1.node.q.terminal == Empty<Task>()
      && OnlyFinished(Next(w1, CancelStep("a", 0.0), cfg).node.q, "a")
      && !Next(w1, CancelStep("a", 0.0), cfg).node.q.terminal.vals["a"].reportedSinceTerminal
  {
    EmptyQueueInv();
    assert EMPTY_QUEUE.Ids() == {};
    var w1 := Next(START, SubmitStep(SmallTask(), "a", 0.0), cfg);
    var q1 := w1.node.q;
    assert q1.queued.vals == map["a" := NewTask(Normalized(SmallTask()), "a", 0.0)];
    var w2 := Next(w1, CancelStep("a", 0.0), cfg);
    assert w2.node.q.queued.vals == map[];
    EmptyOrder(w2.node.q.queued);
    PopAbsent(q1.reserved, "a");
    PopAbsent(q1.running, "a");
  }

  lemma {:induction false} EmptyOrder(d: OrderedDict<Task>)
    requires d.Valid() && d.vals == map[]
    ensures d == Empty<Task>()
  {
    NoElements(d.order);
  }

  /** A snapshot without cards, and the cycle on it. */
  function Report(w: World, cfg: Config): (r: World)
    requires QueueInv(w.node.q)
    ensures QueueInv(r.node.q)
  {
    Next(Next(w, SnapshotStep([], [], 0.0), cfg), CycleStep(NO_INPUT), cfg)
  }

  lemma {:induction false} OnlyFinishedAgain(w: World, id: TaskId, cfg: Config)
    requires OnlyFinished(w.node.q, id)
    ensures Report(Next(w, CancelStep(id, 0.0), cfg), cfg).reported == w.reported + [id]
  {
    assert id in w.node.q.terminal.order;
    LateCancelStep(w, id, cfg);
    CycleReportsUnreported(Next(w, CancelStep(id, 0.0), cfg), id, cfg);
  }

  lemma {:induction false} ReportedOnceMore(w: World, id: TaskId, cfg: Config)
    requires OnlyFinished(w.node.q, id) && Carried(w.node.q, id) && w.reported == [id]
    ensures LateCancel(w, CancelStep(id, 0.0))
    ensures Report(Next(w, CancelStep(id, 0.0), cfg), cfg).reported == [id, id]
  {
    OnlyFinishedAgain(w, id, cfg);
  }

  lemma {:induction false} ReportedTwice(w: World, id: TaskId, cfg: Config)
    requires OnlyFinished(w.node.q, id) && !w.node.q.terminal.vals[id].reportedSinceTerminal && w.reported == []
    ensures var w1 := Report(w, cfg); var w2 := Report(Next(w1, CancelStep(id, 0.0), cfg), cfg);
      w1.reported == [id] && LateCancel(w1, CancelStep(id, 0.0)) && w2.reported == [id, id]
  {
    CycleReportsUnreported(w, id, cfg);
    ReportedOnceMore(Report(w, cfg), id, cfg);
  }

  /** The run that shows it: submit, cancel, report, then cancel again and report again. */
  lemma {:induction false} LateCancelWitness(cfg: Config)
    ensures EMPTY_QUEUE.Ids() == {} && QueueInv(EMPTY_QUEUE)
    ensures var w1 := Next(START, SubmitStep(SmallTask(), "a", 0.0), cfg);
      var w2 := Report(Next(w1, CancelStep("a", 0.0), cfg), cfg);
      var w3 := Report(Next(w2, CancelStep("a", 0.0), cfg), cfg);
      w2.reported == ["a"] && LateCancel(w2, CancelStep("a", 0.0)) && w3.reported == ["a", "a"]
  {
    SubmitThenCancel(cfg);
    var w1 := Next(START, SubmitStep(SmallTask(), "a", 0.0), cfg);
    ReportedTwice(Next(w1, CancelStep("a", 0.0), cfg), "a", cfg);
  }
}
