/** Runs of the agent: the state machine together with the history that its guarantees speak about. */
module Runs {
  import opened Basics
  import opened Models
  import opened QueueSpec
  import opened Node
  import opened Safety
  import Scheduling
  import TickMeaning

  /** The node, and what happened so far: the ids of the accepted tasks, the number of batches, when each task was decided, the
      tasks reported as ended (in order, with repetitions), and the ended tasks dropped by the cap. */
  datatype World = World(
    node: NodeState,
    issued: set<TaskId>,
    batch: nat,
    admitted: map<TaskId, Admission>,
    reported: seq<TaskId>,
    evicted: set<TaskId>)

  const START := World(INITIAL, {}, 0, map[], [], {})

  /** The ended tasks that the cap drops in the coming tick. */
  function EvictedBy(q: QueueState): set<TaskId>
    requires QueueInv(q)
  {
    var all := TickMeaning.Candidates(q);
    TickMeaning.Elems(all[..if |all| > MAX_TERMINAL then |all| - MAX_TERMINAL else 0])
  }

  function Admit(admitted: map<TaskId, Admission>, ds: seq<Scheduling.Decision>, batch: nat,
        pos: nat): map<TaskId, Admission>
    decreases |ds|
  {
    if ds == [] then admitted else Admit(admitted[ds[0].taskId := Admission(batch, pos)], ds[1..], batch, pos + 1)
  }

  /** The queue as the tick inside `step` finds it, if the step contains one. */
  function AtTick(s: NodeState, step: Step): (r: Option<QueueState>)
    requires QueueInv(s.q)
    ensures r.Some? ==> QueueInv(r.value)
  {
    match step
    case FinishStep(id, exitCode, now) =>
      if s.q.Get(id).Some? && s.q.Get(id).value.launchMode.Foreground? then
        Some(s.q.(completions := s.q.completions + [Completion(id, exitCode, now)]))
      else None
    case FailStep(id, now) =>
      if id in s.q.reserved.vals && s.q.reserved.vals[id].launchMode.Foreground? then
        Some(s.q.(runtimes := s.q.runtimes + [RuntimeObservation(id, LaunchFailed, now)]))
      else None
    case CycleStep(input) =>
      if s.inFlight.Some? then Some(s.q.(completions := s.q.completions + input.exits)) else None
    case _ => None
  }

  predicate Enabled(w: World, step: Step, totals: Totals) {
    match step
    case SubmitStep(_, id, _) => id !in w.issued
    case SnapshotStep(cards, _, _) => forall c :: c in cards ==> c.index in totals && c.totalMb == totals[c.index]
    case CycleStep(_) => w.node.inFlight.Some?
    case _ => true
  }

  function Next(w: World, step: Step, cfg: Config): World
    requires QueueInv(w.node.q)
    requires step.SubmitStep? ==> step.id !in w.node.q.Ids()
  {
    var s := w.node;
    var w' := w.(
      node := Do(s, step, cfg),
      evicted := w.evicted + (if AtTick(s, step).Some? then EvictedBy(AtTick(s, step).value) else {}));
    match step
    case SubmitStep(spec, id, _) => if SubmitErrorOf(s, spec).Some? then w' else w'.(issued := w.issued + {id})
    case CycleStep(input) =>
      if s.inFlight.None? then w'
      else
        var (q, completed) := Launched(s, input, cfg);
        w'.(batch := w.batch + 1,
            admitted := Admit(w.admitted, DecisionsOf(s, input, cfg), w.batch, 0),
            reported := w.reported + (if completed then q.terminal.order else []))
    case _ => w'
  }

  /** `step` may be taken in `before`, and leads to `w`. */
  ghost predicate Leads(before: World, step: Step, w: World, totals: Totals, cfg: Config) {
    && QueueInv(before.node.q)
    && Enabled(before, step, totals)
    && (step.SubmitStep? ==> step.id !in before.node.q.Ids())
    && w == Next(before, step, cfg)
  }

  ghost predicate IdsIssued(w: World) {
    QueueInv(w.node.q) && w.node.q.Ids() <= w.issued
  }
}
