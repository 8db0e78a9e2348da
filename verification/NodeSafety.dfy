/** Every step of the agent keeps its GPUs within capacity and its exclusive tasks exclusive. */
module NodeSafety {
  import opened Basics
  import opened Models
  import opened OrderedDicts
  import opened QueueSpec
  import opened Attribution
  import opened AttributionFacts
  import opened Node
  import opened Runs
  import opened Safety
  import opened Admitting
  import opened SchedulingFacts
  import Scheduling
  import TickMeaning

  ghost predicate QueuedOk(t: Task) {
    NonNegative(t) && t.autoReclaimedMb.None? && t.autoPeakMb.None?
  }

  ghost predicate AllQueuedOk(q: QueueState) {
    forall k :: k in q.queued.vals ==> QueuedOk(q.queued.vals[k])
  }

  ghost predicate InFlightOk(s: NodeState, totals: Totals) {
    s.inFlight.Some? ==> SampleOk(s.inFlight.value.sample, totals) && SampleCovers(s.inFlight.value.sample, s.q.Live())
  }

  ghost predicate Inv(w: World, totals: Totals) {
    && IdsIssued(w)
    && AllQueuedOk(w.node.q)
    && Safe(w.node.q.Live(), totals, w.admitted)
    && InFlightOk(w.node, totals)
  }

  // ---------------------------------------------------------------------------
  // What the queue's operations do to the live tasks
  // ---------------------------------------------------------------------------

  lemma {:induction false} UnionMinus(a: map<TaskId, Task>, b: map<TaskId, Task>, ids: set<TaskId>)
    ensures (a - ids) + (b - ids) == (a + b) - ids
  {
  }

  lemma {:induction false} MovedBetween(a: map<TaskId, Task>, b: map<TaskId, Task>, k: TaskId, t: Task)
    ensures (a - {k}) + b[k := t] == (a + b)[k := t]
  {
  }

  lemma {:induction false} MinusIsWeaker(live: map<TaskId, Task>, ids: set<TaskId>)
    ensures Weaker(live - ids, live)
  {
  }

  lemma {:induction false} TickLive(q: QueueState)
    requires QueueInv(q)
    ensures Tick(q).0.Live() == q.Live() - TickMeaning.Elems(Tick(q).1)
    ensures Tick(q).0.queued == q.queued
  {
    TickMeaning.TickCorrect(q);
    UnionMinus(q.reserved.vals, q.running.vals, TickMeaning.Elems(Tick(q).1));
  }

  lemma {:induction false} TickIds(q: QueueState)
    requires QueueInv(q)
    ensures Tick(q).0.Ids() <= q.Ids()
  {
    TickMeaning.TickCorrect(q);
    var r := Tick(q).0;
    forall id | id in r.terminal.vals
      ensures id in q.Live() || id in q.terminal.vals
    {
      if TickMeaning.Verdict(q, id).Some? {
        assert id in q.Live();
      }
    }
  }

  lemma {:induction false} KeysMinus(a: set<TaskId>, b: set<TaskId>, c: set<TaskId>, d: set<TaskId>, x: TaskId)
    ensures (a - {x}) + (b - {x}) + (c - {x}) + (d + {x}) == a + b + c + d + {x}
  {
  }

  lemma {:induction false} FinishPlaces(q: QueueState, t: Task)
    requires QueueInv(q) && t.status.IsTerminal()
    ensures var r := Finish(q, t);
      && r.queued.vals == q.queued.vals - {t.id} && r.queued.vals.Keys == q.queued.vals.Keys - {t.id}
      && r.reserved.vals == q.reserved.vals - {t.id} && r.reserved.vals.Keys == q.reserved.vals.Keys - {t.id}
      && r.running.vals == q.running.vals - {t.id} && r.running.vals.Keys == q.running.vals.Keys - {t.id}
      && r.terminal.vals.Keys == q.terminal.vals.Keys + {t.id}
  {
  }

  lemma {:induction false} FinishLive(q: QueueState, t: Task)
    requires QueueInv(q) && t.status.IsTerminal()
    ensures Finish(q, t).Live() == q.Live() - {t.id}
    ensures Finish(q, t).queued.vals == q.queued.vals - {t.id}
    ensures Finish(q, t).Ids() == q.Ids() + {t.id}
  {
    FinishPlaces(q, t);
    UnionMinus(q.reserved.vals, q.running.vals, {t.id});
    KeysMinus(q.queued.vals.Keys, q.reserved.vals.Keys, q.running.vals.Keys, q.terminal.vals.Keys, t.id);
  }

  lemma {:induction false} CancelLive(q: QueueState, id: TaskId, now: real)
    requires QueueInv(q) && q.Get(id).Some?
    ensures Cancel(q, id, now).Live() == q.Live() - {id}
    ensures Cancel(q, id, now).queued.vals == q.queued.vals - {id}
    ensures Cancel(q, id, now).Ids() == q.Ids()
  {
    var t := q.Get(id).value;
    assert t.id == id;
    FinishLive(q, AsEnded(t, Cancelled, CancelledByUser, now, None));
  }

  lemma {:induction false} StartLive(q: QueueState, id: TaskId, pid: int, now: real)
    requires QueueInv(q) && id in q.reserved.vals
    ensures id in q.Live() && q.Live()[id] == q.reserved.vals[id]
    ensures Start(q, id, pid, now).Live() == q.Live()[id := AsStarted(q.reserved.vals[id], pid, now)]
  {
    MovedBetween(q.reserved.vals, q.running.vals, id, AsStarted(q.reserved.vals[id], pid, now));
  }

  lemma {:induction false} StartWeaker(q: QueueState, id: TaskId, pid: int, now: real)
    requires QueueInv(q) && id in q.reserved.vals
    ensures Weaker(Start(q, id, pid, now).Live(), q.Live())
  {
    StartLive(q, id, pid, now);
  }

  lemma {:induction false} ReserveLive(q: QueueState, id: TaskId, gpus: seq<int>, deadline: Option<real>, now: real)
    requires QueueInv(q) && id in q.queued.vals
    ensures id !in q.Live()
    ensures Reserve(q, id, gpus, deadline, now).Live() == q.Live()[id := AsReserved(q.queued.vals[id], gpus, deadline, now)]
    ensures Reserve(q, id, gpus, deadline, now).queued.vals == q.queued.vals - {id}
  {
    AddedTo(q.reserved.vals, q.running.vals, id, AsReserved(q.queued.vals[id], gpus, deadline, now));
  }

  lemma {:induction false} AddedTo(a: map<TaskId, Task>, b: map<TaskId, Task>, k: TaskId, t: Task)
    requires k !in b
    ensures a[k := t] + b == (a + b)[k := t]
  {
  }

  lemma {:induction false} SubmitPlaces(q: QueueState, spec: TaskSpec, id: TaskId, now: real)
    requires QueueInv(q) && id !in q.Ids()
    ensures var r := Submit(q, spec, id, now);
      && r.queued.vals == q.queued.vals[id := NewTask(spec, id, now)]
      && r.reserved == q.reserved && r.running == q.running && r.terminal == q.terminal
      && r.Live() == q.Live() && r.Ids() == q.Ids() + {id}
  {
    ReorderedCorrect(Put(q.queued, id, NewTask(spec, id, now)));
  }

  lemma {:induction false} ReclaimAllLive(q: QueueState, sample: Sample, now: real)
    requires QueueInv(q)
    ensures Reclaims(ReclaimAll(q, sample, now).Live(), q.Live(), sample, now)
  {
  }

  // ---------------------------------------------------------------------------
  // The snapshot covers what is live
  // ---------------------------------------------------------------------------

  lemma {:induction false} GpuTasksDistinct(q: QueueState)
    requires QueueInv(q)
    ensures DistinctIds(GpuTasks(q))
  {
    var ts := GpuTasks(q);
    var n := |q.running.order|;
    forall i, j | 0 <= i < j < |ts|
      ensures ts[i].id != ts[j].id
    {
      if j < n {
        assert Apart(q.running.order, i, j);
      } else if i >= n {
        assert Apart(q.reserved.order, i - n, j - n);
      } else {
        assert q.running.order[i] in q.running.vals && q.reserved.order[j - n] in q.reserved.vals;
      }
    }
  }

  lemma {:induction false} LiveIsListed(q: QueueState, k: TaskId) returns (n: nat)
    requires QueueInv(q) && k in q.Live()
    ensures n < |GpuTasks(q)| && GpuTasks(q)[n] == q.Live()[k]
  {
    if k in q.running.vals {
      n :| 0 <= n < |q.running.order| && q.running.order[n] == k;
    } else {
      var i :| 0 <= i < |q.reserved.order| && q.reserved.order[i] == k;
      n := |q.running.order| + i;
    }
  }

  lemma {:induction false} CardTableValue(cards: seq<GpuCard>, totals: Totals, g: int)
    requires forall c :: c in cards ==> c.index in totals && c.totalMb == totals[c.index]
    ensures MapGet(CardTable(cards, (c: GpuCard) => c.totalMb), g) in {0.0, MapGet(totals, g)}
    decreases |cards|
  {
    if cards != [] {
      assert cards == Init(cards) + [Last(cards)];
      CardTableValue(Init(cards), totals, g);
    }
  }

  lemma {:induction false} SampleOfOk(q: QueueState, cards: seq<GpuCard>, procs: seq<GpuProcess>, totals: Totals)
    requires QueueInv(q) && forall c :: c in cards ==> c.index in totals && c.totalMb == totals[c.index]
    ensures SampleOk(SampleOf(q, cards, procs), totals) && SampleCovers(SampleOf(q, cards, procs), q.Live())
  {
    if cards != [] {
      var ts, node, sample := GpuTasks(q), Readings(cards), SampleOf(q, cards, procs);
      SampleIndices(procs, ts, node);
      forall i | 0 <= i < |sample|
        ensures SummaryOk(sample[i], totals)
      {
        CardTableValue(cards, totals, sample[i].gpuIndex);
      }
      GpuTasksDistinct(q);
      forall i, k | 0 <= i < |sample|
        ensures CoversTask(sample, q.Live(), i, k)
      {
        if k in q.Live() && AssignedTo(q.Live()[k], sample[i].gpuIndex) {
          var n := LiveIsListed(q, k);
          ReservationVisible(procs, ts, node, n, i);
          ShownIsCovered(sample[i], ts[n]);
        }
      }
    }
  }

  // ---------------------------------------------------------------------------
  // Launching a batch
  // ---------------------------------------------------------------------------

  ghost predicate SameAdmissions(live: map<TaskId, Task>, a: map<TaskId, Admission>, b: map<TaskId, Admission>) {
    forall k :: k in live && k in a ==> k in b && b[k] == a[k]
  }

  lemma {:induction false} SafeUnderSameAdmissions(live: map<TaskId, Task>, totals: Totals, a: map<TaskId, Admission>,
        b: map<TaskId, Admission>)
    requires Safe(live, totals, a) && SameAdmissions(live, a, b)
    ensures Safe(live, totals, b)
  {
    forall k ensures TaskOk(live, totals, b, k) { assert TaskOk(live, totals, a, k); }
    forall x, y, g
      ensures Compatible(live, b, x, y, g)
    {
      assert Compatible(live, a, x, y, g) && TaskOk(live, totals, a, x) && TaskOk(live, totals, a, y);
    }
  }

  lemma {:induction false} AdmitOthers(admitted: map<TaskId, Admission>, ds: seq<Scheduling.Decision>, batch: nat,
        pos: nat, k: TaskId)
    requires k in admitted && forall i :: 0 <= i < |ds| ==> ds[i].taskId != k
    ensures k in Admit(admitted, ds, batch, pos) && Admit(admitted, ds, batch, pos)[k] == admitted[k]
    decreases |ds|
  {
    if ds != [] {
      AdmitOthers(admitted[ds[0].taskId := Admission(batch, pos)], ds[1..], batch, pos + 1, k);
    }
  }

  ghost predicate NamedAt(tasks: seq<Task>, j: int, id: TaskId)
    requires 0 <= j < |tasks|
  {
    tasks[j].id == id
  }

  ghost predicate Named(tasks: seq<Task>, id: TaskId) {
    exists j :: 0 <= j < |tasks| && NamedAt(tasks, j, id)
  }

  ghost predicate AllNamed(ds: seq<Scheduling.Decision>, tasks: seq<Task>) {
    forall i :: 0 <= i < |ds| ==> Named(tasks, ds[i].taskId)
  }

  lemma {:induction false} DecisionsFromTasks(tasks: seq<Task>, view: Scheduling.View, b: Scheduling.Batch)
    ensures AllNamed(Scheduling.Decisions(Scheduling.Schedule(tasks, view, b)), tasks)
    decreases |tasks|
  {
    if tasks != [] {
      var e := Scheduling.Evaluate(tasks[0], view, b);
      var rest := Scheduling.Schedule(tasks[1..], view, Scheduling.After(tasks[0], e, b));
      DecisionsFromTasks(tasks[1..], view, Scheduling.After(tasks[0], e, b));
      assert Scheduling.Schedule(tasks, view, b) == [e] + rest;
      AllNamedStep(e, rest, tasks);
    }
  }

  lemma {:induction false} AllNamedStep(e: Scheduling.Evaluation, rest: seq<Scheduling.Evaluation>, tasks: seq<Task>)
    requires tasks != [] && e.taskId == tasks[0].id && AllNamed(Scheduling.Decisions(rest), tasks[1..])
    ensures AllNamed(Scheduling.Decisions([e] + rest), tasks)
  {
    assert ([e] + rest)[1..] == rest;
    var ds, tail := Scheduling.Decisions([e] + rest), Scheduling.Decisions(rest);
    forall i | 0 <= i < |ds|
      ensures Named(tasks, ds[i].taskId)
    {
      if e.canRun && i == 0 {
        assert NamedAt(tasks, 0, ds[i].taskId);
      } else {
        var i' := if e.canRun then i - 1 else i;
        assert ds[i] == tail[i'];
        var j :| 0 <= j < |tasks[1..]| && NamedAt(tasks[1..], j, tail[i'].taskId);
        assert NamedAt(tasks, j + 1, ds[i].taskId);
      }
    }
  }

  /** The tasks still to be launched are queued as they were when they were scheduled. */
  ghost predicate StillQueued(q: QueueState, tasks: seq<Task>) {
    && DistinctIds(tasks)
    && forall i :: 0 <= i < |tasks| ==>
         tasks[i].id in q.queued.vals && q.queued.vals[tasks[i].id] == tasks[i] && QueuedOk(tasks[i])
  }

  /** What launching starts from, at each of its decisions. */
  ghost predicate LaunchPre(q: QueueState, tasks: seq<Task>, view: Scheduling.View, b: Scheduling.Batch, totals: Totals,
    admitted: map<TaskId, Admission>, batch: nat, pos: nat)
  {
    && QueueInv(q) && StillQueued(q, tasks)
    && SampleOk(view.current, totals)
    && Safe(q.Live(), totals, admitted) && AllBooked(view.current, b.pending, q.Live(), admitted, batch, pos)
  }

  lemma {:induction false} StillQueuedTail(q: QueueState, q1: QueueState, tasks: seq<Task>)
    requires tasks != [] && StillQueued(q, tasks) && q1.queued.vals == q.queued.vals - {tasks[0].id}
    ensures StillQueued(q1, tasks[1..])
  {
  }

  lemma {:induction false} ReserveStep(q: QueueState, tasks: seq<Task>, view: Scheduling.View, b: Scheduling.Batch,
        totals: Totals,
      admitted: map<TaskId, Admission>, batch: nat, pos: nat, gpus: seq<int>, deadline: Option<real>, clock: real)
    requires tasks != [] && LaunchPre(q, tasks, view, b, totals, admitted, batch, pos)
    requires view.PickFor(tasks[0], b.pending) == Some(gpus)
    ensures var t := tasks[0]; var e := Scheduling.Evaluate(t, view, b);
      LaunchPre(Reserve(q, t.id, gpus, deadline, clock), tasks[1..], view, Scheduling.After(t, e, b), totals,
                admitted[t.id := Admission(batch, pos)], batch, pos + 1)
  {
    var t := tasks[0];
    ReserveLive(q, t.id, gpus, deadline, clock);
    var u := AsReserved(t, gpus, deadline, clock);
    AdmitIsSafe(view, q.Live(), t, u, gpus, b.pending, totals, admitted, batch, pos);
    StillQueuedTail(q, Reserve(q, t.id, gpus, deadline, clock), tasks);
  }

  lemma {:induction false} StartStep(q: QueueState, tasks: seq<Task>, view: Scheduling.View, b: Scheduling.Batch,
        totals: Totals,
      admitted: map<TaskId, Admission>, batch: nat, pos: nat, id: TaskId, pid: int, clock: real)
    requires LaunchPre(q, tasks, view, b, totals, admitted, batch, pos) && id in q.reserved.vals
    ensures LaunchPre(Start(q, id, pid, clock), tasks, view, b, totals, admitted, batch, pos)
  {
    StartWeaker(q, id, pid, clock);
    WeakerIsSafe(q.Live(), Start(q, id, pid, clock).Live(), totals, admitted);
    WeakerIsBooked(view.current, b.pending, q.Live(), Start(q, id, pid, clock).Live(), totals, admitted, batch, pos);
  }

  /** The decisions of a batch, unfolded by one task. */
  lemma {:induction false} DecisionsStep(tasks: seq<Task>, view: Scheduling.View, b: Scheduling.Batch)
    requires tasks != []
    ensures var t := tasks[0]; var e := Scheduling.Evaluate(t, view, b);
      var rest := Scheduling.Decisions(Scheduling.Schedule(tasks[1..], view, Scheduling.After(t, e, b)));
      var all := Scheduling.Decisions(Scheduling.Schedule(tasks, view, b));
      if e.canRun then all != [] && all[0] == Scheduling.Decision(t.id, e.gpuIds) && all[1..] == rest else all == rest
  {
  }

  /** Launching the decisions of a batch, however far it gets, leaves the live tasks safe. */
  lemma {:induction false} LaunchIsSafe(q: QueueState, tasks: seq<Task>, view: Scheduling.View, b: Scheduling.Batch,
        totals: Totals,
      admitted: map<TaskId, Admission>, batch: nat, pos: nat, pids: map<TaskId, int>, clock: real, cfg: Config)
    requires LaunchPre(q, tasks, view, b, totals, admitted, batch, pos)
    ensures var ds := Scheduling.Decisions(Scheduling.Schedule(tasks, view, b));
      Safe(Launch(q, ds, pids, clock, cfg).0.Live(), totals, Admit(admitted, ds, batch, pos))
    decreases |tasks|, 2
  {
    if tasks != [] {
      var t, e := tasks[0], Scheduling.Evaluate(tasks[0], view, b);
      var next := Scheduling.After(t, e, b);
      DecisionsStep(tasks, view, b);
      if e.canRun {
        LaunchOne(q, tasks, view, b, totals, admitted, batch, pos, pids, clock, cfg);
      } else {
        StillQueuedTailSame(q, tasks);
        LaunchIsSafe(q, tasks[1..], view, next, totals, admitted, batch, pos, pids, clock, cfg);
      }
    }
  }

  function DeadlineFor(t: Task, clock: real, cfg: Config): Option<real> {
    if t.launchMode.Foreground? then Some(clock + cfg.attachTimeout) else None
  }

  lemma {:induction false} LaunchUnfolded(q: QueueState, t: Task, gpus: seq<int>, ds: seq<Scheduling.Decision>,
        pids: map<TaskId, int>, clock: real, cfg: Config)
    requires QueueInv(q) && t.id in q.queued.vals && q.queued.vals[t.id] == t
    requires ds != [] && ds[0] == Scheduling.Decision(t.id, gpus)
    ensures var q1 := Reserve(q, t.id, gpus, DeadlineFor(t, clock, cfg), clock);
      && t.id in q1.reserved.vals
      && Launch(q, ds, pids, clock, cfg) ==
           if t.launchMode.Foreground? then Launch(q1, ds[1..], pids, clock, cfg)
           else if t.id in pids then Launch(Start(q1, t.id, pids[t.id], clock), ds[1..], pids, clock, cfg)
           else (q1, false)
  {
  }

  lemma {:induction false} LaunchOne(q: QueueState, tasks: seq<Task>, view: Scheduling.View, b: Scheduling.Batch,
        totals: Totals,
      admitted: map<TaskId, Admission>, batch: nat, pos: nat, pids: map<TaskId, int>, clock: real, cfg: Config)
    requires tasks != [] && LaunchPre(q, tasks, view, b, totals, admitted, batch, pos)
    requires view.PickFor(tasks[0], b.pending).Some?
    ensures var ds := Scheduling.Decisions(Scheduling.Schedule(tasks, view, b));
      Safe(Launch(q, ds, pids, clock, cfg).0.Live(), totals, Admit(admitted, ds, batch, pos))
    decreases |tasks|, 1
  {
    var t, e := tasks[0], Scheduling.Evaluate(tasks[0], view, b);
    var next := Scheduling.After(t, e, b);
    var ds := Scheduling.Decisions(Scheduling.Schedule(tasks, view, b));
    DecisionsStep(tasks, view, b);
    var admitted' := admitted[t.id := Admission(batch, pos)];
    assert Admit(admitted, ds, batch, pos) == Admit(admitted', ds[1..], batch, pos + 1);
    var q1 := Reserve(q, t.id, e.gpuIds, DeadlineFor(t, clock, cfg), clock);
    LaunchUnfolded(q, t, e.gpuIds, ds, pids, clock, cfg);
    ReserveStep(q, tasks, view, b, totals, admitted, batch, pos, e.gpuIds, DeadlineFor(t, clock, cfg), clock);
    LaunchRest(q1, tasks[1..], view, next, totals, admitted', batch, pos + 1, t, pids, clock, cfg);
  }

  /** The part of one launch after its reservation, and all later decisions. */
  lemma {:induction false} LaunchRest(q: QueueState, tasks: seq<Task>, view: Scheduling.View, b: Scheduling.Batch,
        totals: Totals,
      admitted: map<TaskId, Admission>, batch: nat, pos: nat, t: Task, pids: map<TaskId, int>, clock: real, cfg: Config)
    requires LaunchPre(q, tasks, view, b, totals, admitted, batch, pos) && t.id in q.reserved.vals
    ensures var ds := Scheduling.Decisions(Scheduling.Schedule(tasks, view, b));
      var r := if t.launchMode.Foreground? then Launch(q, ds, pids, clock, cfg)
               else if t.id in pids then Launch(Start(q, t.id, pids[t.id], clock), ds, pids, clock, cfg)
               else (q, false);
      Safe(r.0.Live(), totals, Admit(admitted, ds, batch, pos))
    decreases |tasks|, 3
  {
    if t.launchMode.Foreground? {
      LaunchIsSafe(q, tasks, view, b, totals, admitted, batch, pos, pids, clock, cfg);
    } else if t.id in pids {
      StartStep(q, tasks, view, b, totals, admitted, batch, pos, t.id, pids[t.id], clock);
      LaunchIsSafe(Start(q, t.id, pids[t.id], clock), tasks, view, b, totals, admitted, batch, pos, pids, clock, cfg);
    } else {
      AbortedIsSafe(q, tasks, view, b, totals, admitted, batch, pos);
    }
  }

  lemma {:induction false} StillQueuedTailSame(q: QueueState, tasks: seq<Task>)
    requires tasks != [] && StillQueued(q, tasks)
    ensures StillQueued(q, tasks[1..])
  {
  }

  lemma {:induction false} AdmitKeepsLive(q: QueueState, tasks: seq<Task>, ds: seq<Scheduling.Decision>,
      admitted: map<TaskId, Admission>, batch: nat, pos: nat)
    requires QueueInv(q) && StillQueued(q, tasks) && AllNamed(ds, tasks)
    ensures SameAdmissions(q.Live(), admitted, Admit(admitted, ds, batch, pos))
  {
    forall k | k in q.Live() && k in admitted
      ensures k in Admit(admitted, ds, batch, pos) && Admit(admitted, ds, batch, pos)[k] == admitted[k]
    {
      forall i | 0 <= i < |ds|
        ensures ds[i].taskId != k
      {
        assert Named(tasks, ds[i].taskId);
        var j :| 0 <= j < |tasks| && NamedAt(tasks, j, ds[i].taskId);
        assert tasks[j].id in q.queued.vals;
      }
      AdmitOthers(admitted, ds, batch, pos, k);
    }
  }

  /** When a launch fails, the decisions after it are dropped; none of their tasks is live. */
  lemma {:induction false} AbortedIsSafe(q: QueueState, tasks: seq<Task>, view: Scheduling.View, b: Scheduling.Batch,
        totals: Totals,
      admitted: map<TaskId, Admission>, batch: nat, pos: nat)
    requires LaunchPre(q, tasks, view, b, totals, admitted, batch, pos)
    ensures Safe(q.Live(), totals, Admit(admitted, Scheduling.Decisions(Scheduling.Schedule(tasks, view, b)), batch, pos))
  {
    var ds := Scheduling.Decisions(Scheduling.Schedule(tasks, view, b));
    DecisionsFromTasks(tasks, view, b);
    AdmitKeepsLive(q, tasks, ds, admitted, batch, pos);
    SafeUnderSameAdmissions(q.Live(), totals, admitted, Admit(admitted, ds, batch, pos));
  }
}
