/** What launching the decisions of a batch does to the tasks: who is live afterwards, with which GPUs. */
module Launches {
  import opened Basics
  import opened Models
  import opened OrderedDicts
  import opened QueueSpec
  import opened Scheduling
  import opened Node
  import opened NodeSafety
  import opened RunSafety

  /** The queue once one decision is launched, if it can be. */
  function LaunchedOne(q: QueueState, t: Task, gpus: seq<int>, pids: map<TaskId, int>, clock: real,
        cfg: Config): (r: QueueState)
    requires QueueInv(q) && t.id in q.queued.vals
    ensures QueueInv(r)
  {
    var q1 := Reserve(q, t.id, gpus, DeadlineFor(t, clock, cfg), clock);
    if !t.launchMode.Foreground? && t.id in pids then Start(q1, t.id, pids[t.id], clock) else q1
  }

  /** `u` is the record of queued task `t` once it holds `gpus`. */
  ghost predicate Holder(u: Task, t: Task, gpus: seq<int>) {
    u.assignedGpus == Some(gpus) && RequestOf(u) == RequestOf(t) && u.autoReclaimedMb == t.autoReclaimedMb
    && u.declaredVramPerGpu == AsReserved(t, gpus, None, 0.0).declaredVramPerGpu
  }

  lemma {:induction false} UpdatedTwice(live: map<TaskId, Task>, k: TaskId, t: Task, u: Task)
    ensures live[k := t][k := u] == live[k := u]
  {
  }

  /** The record of a queued task once it is launched. */
  function LaunchedTask(t: Task, gpus: seq<int>, pids: map<TaskId, int>, clock: real, cfg: Config): (u: Task)
    ensures Holder(u, t, gpus)
  {
    var u := AsReserved(t, gpus, DeadlineFor(t, clock, cfg), clock);
    if !t.launchMode.Foreground? && t.id in pids then AsStarted(u, pids[t.id], clock) else u
  }

  /** One launch makes the task a holder, and changes no other live task. */
  lemma {:induction false} LaunchedOneLive(q: QueueState, t: Task, gpus: seq<int>, pids: map<TaskId, int>, clock: real,
        cfg: Config) returns (u: Task)
    requires QueueInv(q) && t.id in q.queued.vals && q.queued.vals[t.id] == t
    ensures t.id !in q.Live() && u == LaunchedTask(t, gpus, pids, clock, cfg) && Holder(u, t, gpus)
    ensures var r := LaunchedOne(q, t, gpus, pids, clock, cfg);
      r.Live() == q.Live()[t.id := u] && r.queued.vals == q.queued.vals - {t.id}
  {
    var deadline := DeadlineFor(t, clock, cfg);
    ReserveLive(q, t.id, gpus, deadline, clock);
    var q1 := Reserve(q, t.id, gpus, deadline, clock);
    u := LaunchedTask(t, gpus, pids, clock, cfg);
    if !t.launchMode.Foreground? && t.id in pids {
      StartLive(q1, t.id, pids[t.id], clock);
      StartIds(q1, t.id, pids[t.id], clock);
      UpdatedTwice(q.Live(), t.id, AsReserved(t, gpus, deadline, clock), u);
    }
  }

  /** What happens to a decision about a queued task. */
  lemma {:induction false} LaunchHead(q: QueueState, ds: seq<Decision>, pids: map<TaskId, int>, clock: real, cfg: Config)
    requires QueueInv(q) && ds != [] && ds[0].taskId in q.queued.vals
    ensures var t := q.queued.vals[ds[0].taskId];
      var r := LaunchedOne(q, t, ds[0].gpuIds, pids, clock, cfg);
      && t.id == ds[0].taskId
      && Launch(q, ds, pids, clock, cfg) ==
           if t.launchMode.Foreground? || t.id in pids then Launch(r, ds[1..], pids, clock, cfg) else (r, false)
  {
    var t := q.queued.vals[ds[0].taskId];
    LaunchUnfolded(q, t, ds[0].gpuIds, ds, pids, clock, cfg);
  }

  /** A live task stays live, and its record does not change. */
  lemma {:induction false} LaunchKeepsLive(q: QueueState, ds: seq<Decision>, pids: map<TaskId, int>, clock: real,
        cfg: Config, k: TaskId)
    requires QueueInv(q) && k in q.Live()
    ensures var r := Launch(q, ds, pids, clock, cfg).0; k in r.Live() && r.Live()[k] == q.Live()[k]
    decreases |ds|
  {
    if ds != [] {
      var id := ds[0].taskId;
      if id !in q.queued.vals {
        LaunchKeepsLive(q, ds[1..], pids, clock, cfg, k);
      } else {
        var t := q.queued.vals[id];
        LaunchHead(q, ds, pids, clock, cfg);
        var u := LaunchedOneLive(q, t, ds[0].gpuIds, pids, clock, cfg);
        LaunchKeepsLive(LaunchedOne(q, t, ds[0].gpuIds, pids, clock, cfg), ds[1..], pids, clock, cfg, k);
      }
    }
  }

  ghost predicate LaunchableAt(q: QueueState, pids: map<TaskId, int>, d: Decision) {
    d.taskId in q.queued.vals && d.taskId in pids
  }

  /** The decisions are about queued tasks, each about another, and every launch succeeds. */
  ghost predicate Launchable(q: QueueState, ds: seq<Decision>, pids: map<TaskId, int>) {
    && (forall y :: 0 <= y < |ds| ==> LaunchableAt(q, pids, ds[y]))
    && (forall x, y :: 0 <= x < y < |ds| ==> ds[x].taskId != ds[y].taskId)
  }

  lemma {:induction false} LaunchableTail(q: QueueState, r: QueueState, ds: seq<Decision>, pids: map<TaskId, int>)
    requires ds != [] && Launchable(q, ds, pids) && r.queued.vals == q.queued.vals - {ds[0].taskId}
    ensures Launchable(r, ds[1..], pids)
  {
    forall y | 0 <= y < |ds[1..]|
      ensures LaunchableAt(r, pids, ds[1..][y])
    {
      assert LaunchableAt(q, pids, ds[y + 1]) && ds[0].taskId != ds[y + 1].taskId;
    }
  }

  /** A launch that succeeds leads on to the rest. */
  lemma {:induction false} LaunchStep(q: QueueState, ds: seq<Decision>, pids: map<TaskId, int>, clock: real,
        cfg: Config) returns (r: QueueState)
    requires QueueInv(q) && ds != [] && LaunchableAt(q, pids, ds[0])
    ensures QueueInv(r) && Launch(q, ds, pids, clock, cfg) == Launch(r, ds[1..], pids, clock, cfg)
    ensures var id := ds[0].taskId;
      && r.queued.vals == q.queued.vals - {id}
      && id in r.Live() && Holder(r.Live()[id], q.queued.vals[id], ds[0].gpuIds)
  {
    var t := q.queued.vals[ds[0].taskId];
    r := LaunchedOne(q, t, ds[0].gpuIds, pids, clock, cfg);
    LaunchHead(q, ds, pids, clock, cfg);
    var u := LaunchedOneLive(q, t, ds[0].gpuIds, pids, clock, cfg);
  }

  /** The task of the decision is live and holds the GPUs that the decision gives. */
  ghost predicate Served(queued: map<TaskId, Task>, live: map<TaskId, Task>, d: Decision) {
    d.taskId in queued && d.taskId in live && Holder(live[d.taskId], queued[d.taskId], d.gpuIds)
  }

  /** The first decision about a queued task is served, however far the batch gets. */
  lemma {:induction false} LaunchServesHead(q: QueueState, ds: seq<Decision>, pids: map<TaskId, int>, clock: real,
        cfg: Config)
    requires QueueInv(q) && ds != [] && ds[0].taskId in q.queued.vals
    ensures Served(q.queued.vals, Launch(q, ds, pids, clock, cfg).0.Live(), ds[0])
  {
    var t := q.queued.vals[ds[0].taskId];
    var r := LaunchedOne(q, t, ds[0].gpuIds, pids, clock, cfg);
    LaunchHead(q, ds, pids, clock, cfg);
    var u := LaunchedOneLive(q, t, ds[0].gpuIds, pids, clock, cfg);
    if t.launchMode.Foreground? || t.id in pids { LaunchKeepsLive(r, ds[1..], pids, clock, cfg, t.id); }
  }

  /** If every launch succeeds, every decision ends with its task live on the GPUs it gives. */
  lemma {:induction false} LaunchReaches(q: QueueState, ds: seq<Decision>, pids: map<TaskId, int>, clock: real,
        cfg: Config, y: nat, d: Decision)
    requires QueueInv(q) && Launchable(q, ds, pids) && y < |ds| && ds[y] == d
    ensures Served(q.queued.vals, Launch(q, ds, pids, clock, cfg).0.Live(), d)
    decreases |ds|
  {
    assert LaunchableAt(q, pids, ds[0]);
    if y == 0 {
      LaunchServesHead(q, ds, pids, clock, cfg);
    } else {
      var r := LaunchStep(q, ds, pids, clock, cfg);
      LaunchableTail(q, r, ds, pids);
      LaunchReaches(r, ds[1..], pids, clock, cfg, y - 1, d);
      assert ds[0].taskId != d.taskId;
    }
  }

  lemma {:induction false} LaunchSkips(q: QueueState, ds: seq<Decision>, pids: map<TaskId, int>, clock: real, cfg: Config)
    requires QueueInv(q) && ds != [] && ds[0].taskId !in q.queued.vals
    ensures var r := Launch(q, ds, pids, clock, cfg).0; r == Launch(q, ds[1..], pids, clock, cfg).0 || r == q
  {
  }

  lemma {:induction false} LaunchGoesOn(q: QueueState, ds: seq<Decision>, pids: map<TaskId, int>, clock: real, cfg: Config)
    returns (r: QueueState)
    requires QueueInv(q) && ds != [] && ds[0].taskId in q.queued.vals
    ensures QueueInv(r) && r.queued.vals == q.queued.vals - {ds[0].taskId}
    ensures r.Live().Keys == q.Live().Keys + {ds[0].taskId}
    ensures var l := Launch(q, ds, pids, clock, cfg).0; l == Launch(r, ds[1..], pids, clock, cfg).0 || l == r
  {
    var t := q.queued.vals[ds[0].taskId];
    r := LaunchedOne(q, t, ds[0].gpuIds, pids, clock, cfg);
    LaunchHead(q, ds, pids, clock, cfg);
    var u := LaunchedOneLive(q, t, ds[0].gpuIds, pids, clock, cfg);
  }

  // ---------------------------------------------------------------------------
  // Records after a batch
  // ---------------------------------------------------------------------------

  /** What the first decision about the task gives. */
  function FirstGiven(ds: seq<Decision>, id: TaskId): Option<seq<int>> {
    if ds == [] then None else if ds[0].taskId == id then Some(ds[0].gpuIds) else FirstGiven(ds[1..], id)
  }

  ghost predicate RecordedAs(queued: map<TaskId, Task>, live: map<TaskId, Task>, ds: seq<Decision>, k: TaskId,
        pids: map<TaskId, int>, clock: real, cfg: Config) {
    && k in queued && k in live && FirstGiven(ds, k).Some?
    && live[k] == LaunchedTask(queued[k], FirstGiven(ds, k).value, pids, clock, cfg)
  }

  lemma {:induction false} HeadRecord(q: QueueState, ds: seq<Decision>, pids: map<TaskId, int>, clock: real, cfg: Config)
    requires QueueInv(q) && ds != [] && ds[0].taskId in q.queued.vals
    ensures RecordedAs(q.queued.vals, Launch(q, ds, pids, clock, cfg).0.Live(), ds, ds[0].taskId, pids, clock, cfg)
  {
    var t := q.queued.vals[ds[0].taskId];
    var r := LaunchedOne(q, t, ds[0].gpuIds, pids, clock, cfg);
    LaunchHead(q, ds, pids, clock, cfg);
    var u := LaunchedOneLive(q, t, ds[0].gpuIds, pids, clock, cfg);
    if t.launchMode.Foreground? || t.id in pids { LaunchKeepsLive(r, ds[1..], pids, clock, cfg, t.id); }
  }

  lemma {:induction false} RecordedLater(queued: map<TaskId, Task>, fewer: map<TaskId, Task>, live: map<TaskId, Task>,
        ds: seq<Decision>, k: TaskId, pids: map<TaskId, int>, clock: real, cfg: Config)
    requires ds != [] && ds[0].taskId != k && RecordedAs(fewer, live, ds[1..], k, pids, clock, cfg)
    requires k in fewer ==> k in queued && fewer[k] == queued[k]
    ensures RecordedAs(queued, live, ds, k, pids, clock, cfg)
  {
  }

  /** The record of a task that a batch made live: reserved, and started if it is a background task with a pid, all at the
      clock of the batch, on the GPUs of its first decision. */
  lemma {:induction false} LaunchedRecord(q: QueueState, ds: seq<Decision>, pids: map<TaskId, int>, clock: real,
        cfg: Config, k: TaskId, live: map<TaskId, Task>)
    requires QueueInv(q) && live == Launch(q, ds, pids, clock, cfg).0.Live() && k !in q.Live() && k in live
    ensures RecordedAs(q.queued.vals, live, ds, k, pids, clock, cfg)
    decreases |ds|
  {
    if ds[0].taskId !in q.queued.vals {
      LaunchSkips(q, ds, pids, clock, cfg);
      LaunchedRecord(q, ds[1..], pids, clock, cfg, k, live);
      RecordedLater(q.queued.vals, q.queued.vals, live, ds, k, pids, clock, cfg);
    } else if k == ds[0].taskId {
      HeadRecord(q, ds, pids, clock, cfg);
    } else {
      var r := LaunchGoesOn(q, ds, pids, clock, cfg);
      LaunchedRecord(r, ds[1..], pids, clock, cfg, k, live);
      RecordedLater(q.queued.vals, r.queued.vals, live, ds, k, pids, clock, cfg);
    }
  }

  lemma {:induction false} FirstGivenAt(ds: seq<Decision>, k: TaskId) returns (y: nat)
    requires FirstGiven(ds, k).Some?
    ensures y < |ds| && ds[y] == Decision(k, FirstGiven(ds, k).value)
    decreases |ds|
  {
    if ds[0].taskId == k {
      y := 0;
    } else {
      var z := FirstGivenAt(ds[1..], k);
      y := z + 1;
    }
  }

  /** A task that a batch made live was decided in it, and holds what the decision gave it. */
  lemma {:induction false} LaunchedWasDecided(q: QueueState, ds: seq<Decision>, pids: map<TaskId, int>, clock: real,
        cfg: Config, k: TaskId, live: map<TaskId, Task>) returns (y: nat)
    requires QueueInv(q) && live == Launch(q, ds, pids, clock, cfg).0.Live() && k !in q.Live() && k in live
    ensures y < |ds| && ds[y].taskId == k && Served(q.queued.vals, live, ds[y])
  {
    LaunchedRecord(q, ds, pids, clock, cfg, k, live);
    y := FirstGivenAt(ds, k);
  }
}
