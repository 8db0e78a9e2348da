/** What each operation of the agent's task queue does to the queue's abstract state,
    and the lifecycle invariant that every operation keeps. */
module QueueSpec {
  import opened Basics
  import opened Models
  import opened OrderedDicts
  import opened Sorting

  const MAX_TERMINAL: nat := 64

  datatype Completion = Completion(taskId: TaskId, exitCode: int, timestamp: real)

  datatype RuntimeObservation = RuntimeObservation(taskId: TaskId, reason: EndReason, timestamp: real)

  datatype QueueState = QueueState(
    queued: OrderedDict<Task>,
    reserved: OrderedDict<Task>,
    running: OrderedDict<Task>,
    terminal: OrderedDict<Task>,
    completions: seq<Completion>,
    runtimes: seq<RuntimeObservation>)
  {
    /** Tasks that hold GPUs. */
    function Live(): map<TaskId, Task> {
      reserved.vals + running.vals
    }

    function Ids(): set<TaskId> {
      queued.vals.Keys + reserved.vals.Keys + running.vals.Keys + terminal.vals.Keys
    }

    function Get(id: TaskId): Option<Task> {
      if id in queued.vals then Some(queued.vals[id])
      else if id in reserved.vals then Some(reserved.vals[id])
      else if id in running.vals then Some(running.vals[id])
      else terminal.Get(id)
    }
  }

  const EMPTY_QUEUE := QueueState(Empty<Task>(), Empty<Task>(), Empty<Task>(), Empty<Task>(), [], [])

  // ---------------------------------------------------------------------------
  // Lifecycle invariant
  // ---------------------------------------------------------------------------

  /** Lower priority number first, then earlier creation time. */
  predicate KeyLe(a: (TaskId, Task), b: (TaskId, Task)) {
    a.1.priority < b.1.priority || (a.1.priority == b.1.priority && a.1.createdAt <= b.1.createdAt)
  }

  ghost predicate Filed(d: OrderedDict<Task>, status: TaskStatus) {
    d.Valid() && forall k :: k in d.vals ==> d.vals[k].id == k && d.vals[k].status == status
  }

  ghost predicate FiledTerminal(d: OrderedDict<Task>) {
    d.Valid() && forall k :: k in d.vals ==> d.vals[k].id == k && d.vals[k].status.IsTerminal()
  }

  ghost predicate InOrderAt(d: OrderedDict<Task>, i: int, j: int)
    requires d.Valid() && 0 <= i < j < |d.order|
  {
    KeyLe((d.order[i], d.vals[d.order[i]]), (d.order[j], d.vals[d.order[j]]))
  }

  ghost predicate InOrder(d: OrderedDict<Task>)
    requires d.Valid()
  {
    forall i, j :: 0 <= i < j < |d.order| ==> InOrderAt(d, i, j)
  }

  /** The four maps are disjoint, each holds only its own status under the task's own id,
      and the queued tasks stand in (priority, created_at) order. */
  ghost predicate QueueInv(q: QueueState) {
    && Filed(q.queued, Queued) && Filed(q.reserved, Reserved) && Filed(q.running, Running)
    && FiledTerminal(q.terminal)
    && q.queued.vals.Keys !! q.reserved.vals.Keys !! q.running.vals.Keys !! q.terminal.vals.Keys
    && InOrder(q.queued)
  }

  lemma {:induction false} EmptyQueueInv()
    ensures QueueInv(EMPTY_QUEUE)
  {
  }

  // ---------------------------------------------------------------------------
  // Ordering of the queued tasks
  // ---------------------------------------------------------------------------

  function Reordered(d: OrderedDict<Task>): OrderedDict<Task>
    requires d.Valid()
  {
    var items := StableSort(d.Items(), KeyLe);
    OrderedDict(seq(|items|, i requires 0 <= i < |items| => items[i].0), d.vals)
  }

  lemma {:induction false} KeyLeTotalPreorder()
    ensures TotalPreorder(KeyLe)
  {
  }

  /** Re-sorting keeps the tasks, sorts them by (priority, created_at), and leaves tasks with
      equal keys in the order they had. */
  lemma {:induction false} ReorderedCorrect(d: OrderedDict<Task>)
    requires d.Valid()
    ensures var r := Reordered(d);
      && r.Valid() && r.vals == d.vals && InOrder(r)
      && multiset(r.Items()) == multiset(d.Items())
      && forall x :: Ties(r.Items(), x, KeyLe) == Ties(d.Items(), x, KeyLe)
  {
    var items := d.Items();
    var sorted := StableSort(items, KeyLe);
    KeyLeTotalPreorder();
    StableSortCorrect(items, KeyLe);
    forall i, j | 0 <= i < j < |items|
      ensures items[i] != items[j]
    {
      assert Apart(d.order, i, j);
    }
    SortKeepsDistinct(items, sorted);
    SameElements(items, sorted);
    var r := Reordered(d);
    forall i | 0 <= i < |sorted|
      ensures sorted[i].0 in d.vals && sorted[i].1 == d.vals[sorted[i].0]
    {
      assert sorted[i] in items;
    }
    forall k
      ensures k in r.order <==> k in r.vals
    {
      if k in d.vals {
        var i :| 0 <= i < |d.order| && d.order[i] == k;
        assert items[i] in sorted;
        var j :| 0 <= j < |sorted| && sorted[j] == items[i];
        assert r.order[j] == k;
      }
    }
    forall i, j | 0 <= i < j < |r.order|
      ensures Apart(r.order, i, j)
    {
      assert sorted[i] != sorted[j];
    }
    assert r.Valid();
    assert r.Items() == sorted;
    forall i, j | 0 <= i < j < |r.order|
      ensures InOrderAt(r, i, j)
    {
      assert sorted[i] == (r.order[i], r.vals[r.order[i]]) && sorted[j] == (r.order[j], r.vals[r.order[j]]);
    }
  }

  lemma {:induction false} ReorderedItems(d: OrderedDict<Task>)
    requires d.Valid()
    ensures Reordered(d).Valid() && Reordered(d).Items() == StableSort(d.Items(), KeyLe)
  {
    var sorted := StableSort(d.Items(), KeyLe);
    KeyLeTotalPreorder();
    StableSortCorrect(d.Items(), KeyLe);
    SameElements(d.Items(), sorted);
    ReorderedCorrect(d);
    forall i | 0 <= i < |sorted|
      ensures sorted[i] == Reordered(d).Items()[i]
    {
      assert sorted[i] in d.Items();
    }
  }

  /** The dictionary `d` has been rebuilt up to its position `n`. */
  ghost predicate RebuiltUpTo(d: OrderedDict<Task>, cur: OrderedDict<Task>, n: nat) {
    && d.Valid() && n <= |d.order| && cur.Valid() && cur.order == d.order[..n]
    && forall k :: k in cur.vals ==> k in d.vals && cur.vals[k] == d.vals[k]
  }

  lemma {:induction false} RebuildStep(d: OrderedDict<Task>, cur: OrderedDict<Task>, n: nat)
    requires n < |d.order| && RebuiltUpTo(d, cur, n)
    ensures RebuiltUpTo(d, Put(cur, d.order[n], d.vals[d.order[n]]), n + 1)
  {
    FreshAt(d.order, n);
    assert d.order[n] !in cur.vals;
    assert d.order[..n + 1] == d.order[..n] + [d.order[n]];
  }

  lemma {:induction false} RebuildDone(d: OrderedDict<Task>, cur: OrderedDict<Task>)
    requires RebuiltUpTo(d, cur, |d.order|)
    ensures cur == d
  {
    assert d.order[..|d.order|] == d.order;
    assert cur.vals == d.vals;
  }

  lemma {:induction false} PopInOrder(d: OrderedDict<Task>, k: TaskId)
    requires d.Valid() && InOrder(d)
    ensures InOrder(d.Pop(k))
  {
    var r := d.Pop(k);
    if k in d.order {
      var p := IndexOf(d.order, k);
      forall i, j | 0 <= i < j < |r.order|
        ensures InOrderAt(r, i, j)
      {
        assert InOrderAt(d, if i < p then i else i + 1, if j < p then j else j + 1);
      }
    } else {
      forall i, j | 0 <= i < j < |r.order|
        ensures InOrderAt(r, i, j)
      {
        assert InOrderAt(d, i, j);
      }
    }
  }

  // ---------------------------------------------------------------------------
  // Submission, priority, reservation, start, cancel
  // ---------------------------------------------------------------------------

  function NewTask(spec: TaskSpec, id: TaskId, now: real): Task {
    var requested: Option<int> :=
      if spec.vramMode.ExclusiveAuto? then None
      else if spec.requestedVramMb.Some? then spec.requestedVramMb
      else Some(spec.requireVramMb);
    Task(id, Queued, spec.launchMode, requested.GetOr(0), spec.requireGpuCount, requested, spec.vramMode,
         spec.priority, now, None, None, None, None, None, None, spec.autoObserveWindowSec, None, None, false,
         None, None, false, None)
  }

  function Submit(q: QueueState, spec: TaskSpec, id: TaskId, now: real): (r: QueueState)
    requires QueueInv(q) && id !in q.Ids()
    ensures QueueInv(r)
  {
    ReorderedCorrect(Put(q.queued, id, NewTask(spec, id, now)));
    q.(queued := Reordered(Put(q.queued, id, NewTask(spec, id, now))))
  }

  function SetPriority(q: QueueState, id: TaskId, priority: int): (r: QueueState)
    requires QueueInv(q)
    ensures QueueInv(r)
  {
    if id !in q.queued.vals then q
    else
      var queued := Put(q.queued, id, q.queued.vals[id].(priority := priority));
      ReorderedCorrect(queued);
      q.(queued := Reordered(queued))
  }

  function AsReserved(t: Task, gpus: seq<int>, deadline: Option<real>, now: real): Task {
    t.(status := Reserved, assignedGpus := Some(gpus), reservedAt := Some(now), attachDeadline := deadline,
       declaredVramPerGpu := Some(if t.vramMode.ExclusiveAuto? then 0 else t.requestedVramMb.GetOr(t.requireVramMb)))
  }

  function Reserve(q: QueueState, id: TaskId, gpus: seq<int>, deadline: Option<real>, now: real): (r: QueueState)
    requires QueueInv(q) && id in q.queued.vals
    ensures QueueInv(r)
  {
    PopInOrder(q.queued, id);
    q.(queued := q.queued.Pop(id), reserved := Put(q.reserved, id, AsReserved(q.queued.vals[id], gpus, deadline, now)))
  }

  function AsStarted(t: Task, pid: int, now: real): Task {
    t.(status := Running, pid := Some(pid), startedAt := Some(now))
  }

  function Start(q: QueueState, id: TaskId, pid: int, now: real): (r: QueueState)
    requires QueueInv(q) && id in q.reserved.vals
    ensures QueueInv(r)
  {
    q.(reserved := q.reserved.Pop(id), running := Put(q.running, id, AsStarted(q.reserved.vals[id], pid, now)))
  }

  function AsEnded(t: Task, status: TaskStatus, reason: EndReason, timestamp: real, exitCode: Option<int>): Task {
    t.(status := status, endReason := Some(reason), finishedAt := Some(timestamp), exitCode := exitCode,
       reportedSinceTerminal := false)
  }

  /** Moves a task out of whichever collection it lives in and into the terminal one. */
  function Finish(q: QueueState, t: Task): (r: QueueState)
    requires QueueInv(q) && t.status.IsTerminal()
    ensures QueueInv(r)
  {
    PopInOrder(q.queued, t.id);
    q.(queued := q.queued.Pop(t.id), reserved := q.reserved.Pop(t.id), running := q.running.Pop(t.id),
       terminal := Put(q.terminal, t.id, t))
  }

  function Cancel(q: QueueState, id: TaskId, now: real): (r: QueueState)
    requires QueueInv(q)
    ensures QueueInv(r)
  {
    match q.Get(id)
    case None => q
    case Some(t) => Finish(q, AsEnded(t, Cancelled, CancelledByUser, now, None))
  }

  // ---------------------------------------------------------------------------
  // Tick
  // ---------------------------------------------------------------------------

  function EndedByCompletion(t: Task, c: Completion): Task {
    if c.exitCode == 0 then AsEnded(t, Succeeded, ExitZero, c.timestamp, Some(c.exitCode))
    else AsEnded(t, Failed, ExitNonzero, c.timestamp, Some(c.exitCode))
  }

  function EndedByRuntime(t: Task, o: RuntimeObservation): Task {
    AsEnded(t, Abnormal, o.reason, o.timestamp, None)
  }

  function ConsumeCompletions(q: QueueState, cs: seq<Completion>): (r: (QueueState, seq<TaskId>))
    requires QueueInv(q)
    ensures QueueInv(r.0)
    decreases |cs|
  {
    if cs == [] then (q, [])
    else if cs[0].taskId in q.running.vals then
      var next := Finish(q, EndedByCompletion(q.running.vals[cs[0].taskId], cs[0]));
      var rest := ConsumeCompletions(next, cs[1..]);
      (rest.0, [cs[0].taskId] + rest.1)
    else ConsumeCompletions(q, cs[1..])
  }

  function ConsumeRuntimes(q: QueueState, os: seq<RuntimeObservation>): (r: (QueueState, seq<TaskId>))
    requires QueueInv(q)
    ensures QueueInv(r.0)
    decreases |os|
  {
    if os == [] then (q, [])
    else if os[0].taskId in q.Live() then
      var next := Finish(q, EndedByRuntime(q.Live()[os[0].taskId], os[0]));
      var rest := ConsumeRuntimes(next, os[1..]);
      (rest.0, [os[0].taskId] + rest.1)
    else ConsumeRuntimes(q, os[1..])
  }

  lemma {:induction false} CompletionsFrom(q: QueueState, cs: seq<Completion>, n: nat)
    requires QueueInv(q) && n < |cs|
    ensures ConsumeCompletions(q, cs[n..]) ==
      if cs[n].taskId in q.running.vals then
        var rest := ConsumeCompletions(Finish(q, EndedByCompletion(q.running.vals[cs[n].taskId], cs[n])), cs[n + 1..]);
        (rest.0, [cs[n].taskId] + rest.1)
      else ConsumeCompletions(q, cs[n + 1..])
  {
    assert cs[n..][1..] == cs[n + 1..];
  }

  lemma {:induction false} RuntimesFrom(q: QueueState, os: seq<RuntimeObservation>, n: nat)
    requires QueueInv(q) && n < |os|
    ensures ConsumeRuntimes(q, os[n..]) ==
      if os[n].taskId in q.Live() then
        var rest := ConsumeRuntimes(Finish(q, EndedByRuntime(q.Live()[os[n].taskId], os[n])), os[n + 1..]);
        (rest.0, [os[n].taskId] + rest.1)
      else ConsumeRuntimes(q, os[n + 1..])
  {
    assert os[n..][1..] == os[n + 1..];
  }

  function UnreportedIds(order: seq<TaskId>, vals: map<TaskId, Task>): (r: seq<TaskId>)
    requires forall k :: k in order ==> k in vals
    ensures forall k :: k in r <==> k in order && !vals[k].reportedSinceTerminal
    ensures NoDup(order) ==> NoDup(r)
  {
    if order == [] then []
    else
      var rest := UnreportedIds(order[1..], vals);
      assert NoDup(order) ==> NoDup(rest) && order[0] !in rest by {
        if NoDup(order) { TailNoDup(order); }
      }
      if vals[order[0]].reportedSinceTerminal then rest
      else
        assert NoDup(order) ==> NoDup([order[0]] + rest) by {
          if NoDup(order) { ConsNoDup(order[0], rest); }
        }
        [order[0]] + rest
  }

  lemma {:induction false} UnreportedSnoc(ids: seq<TaskId>, x: TaskId, vals: map<TaskId, Task>)
    requires x in vals && forall k :: k in ids ==> k in vals
    ensures UnreportedIds(ids + [x], vals)
         == UnreportedIds(ids, vals) + (if vals[x].reportedSinceTerminal then [] else [x])
  {
    if ids == [] {
      assert ids + [x] == [x];
      assert [x][1..] == [];
    } else {
      assert (ids + [x])[1..] == ids[1..] + [x];
      UnreportedSnoc(ids[1..], x, vals);
    }
  }

  /** Removing the id under the cursor leaves the kept prefix and the rest. */
  lemma {:induction false} WithoutAfter(kept: seq<TaskId>, ids: seq<TaskId>, n: nat)
    requires n < |ids| && NoDup(ids) && ids[n] !in kept
    ensures Without(kept + ids[n..], ids[n]) == kept + ids[n + 1..]
  {
    var s := kept + ids[n..];
    assert s[|kept|] == ids[n];
    var p := IndexOf(s, ids[n]);
    assert p == |kept|;
    assert s[p + 1..] == ids[n + 1..];
  }

  /** Drops the terminal tasks that a report already carried. */
  function Unreported(d: OrderedDict<Task>): (r: OrderedDict<Task>)
    requires d.Valid()
    ensures r.Valid()
  {
    OrderedDict(UnreportedIds(d.order, d.vals), map k | k in d.vals && !d.vals[k].reportedSinceTerminal :: d.vals[k])
  }

  /** Drops the oldest entries beyond the cap. */
  function Capped(d: OrderedDict<Task>): (r: OrderedDict<Task>)
    requires d.Valid()
    ensures r.Valid()
    decreases |d.order|
  {
    if |d.order| > MAX_TERMINAL then Capped(d.Pop(d.order[0])) else d
  }

  function Tick(q: QueueState): (r: (QueueState, seq<TaskId>))
    requires QueueInv(q)
    ensures QueueInv(r.0)
  {
    var a := ConsumeCompletions(q, q.completions);
    var q1 := a.0.(completions := []);
    var b := ConsumeRuntimes(q1, q1.runtimes);
    CappedIsSuffix(Unreported(b.0.terminal));
    (b.0.(runtimes := [], terminal := Capped(Unreported(b.0.terminal))), a.1 + b.1)
  }

  /** A tick is its two consuming passes followed by the clean-up. */
  lemma {:induction false} TickParts(q: QueueState, q1: QueueState, q2: QueueState, byExit: seq<TaskId>,
        byMonitor: seq<TaskId>)
    requires QueueInv(q) && QueueInv(q1)
    requires q1 == ConsumeCompletions(q, q.completions).0.(completions := [])
    requires q2 == ConsumeRuntimes(q1, q1.runtimes).0.(runtimes := [])
    requires byExit == ConsumeCompletions(q, q.completions).1 && byMonitor == ConsumeRuntimes(q1, q1.runtimes).1
    ensures q2.terminal.Valid() && Tick(q).1 == byExit + byMonitor
    ensures Tick(q).0 == q2.(terminal := Capped(Unreported(q2.terminal)))
  {
  }

  /** One turn of the reclaim loop: `cur` has been cleaned up to position `n` of `d`. */
  ghost predicate ReclaimedUpTo(d: OrderedDict<Task>, cur: OrderedDict<Task>, n: nat)
    requires d.Valid() && n <= |d.order|
  {
    && cur.Valid()
    && (forall k :: k in d.order[..n] ==> k in d.vals)
    && cur.order == UnreportedIds(d.order[..n], d.vals) + d.order[n..]
    && (forall k :: k in cur.vals ==> k in d.vals && cur.vals[k] == d.vals[k])
  }

  lemma {:induction false} ReclaimStep(d: OrderedDict<Task>, cur: OrderedDict<Task>, n: nat)
    requires d.Valid() && n < |d.order| && ReclaimedUpTo(d, cur, n)
    ensures d.order[n] in cur.vals && cur.vals[d.order[n]] == d.vals[d.order[n]]
    ensures ReclaimedUpTo(d, if d.vals[d.order[n]].reportedSinceTerminal then cur.Pop(d.order[n]) else cur, n + 1)
  {
    assert cur.order[|UnreportedIds(d.order[..n], d.vals)|] == d.order[n];
    ReclaimOrder(d, n);
  }

  lemma {:induction false} ReclaimOrder(d: OrderedDict<Task>, n: nat)
    requires NoDup(d.order) && (forall k :: k in d.order ==> k in d.vals) && n < |d.order|
    ensures forall k :: k in d.order[..n] ==> k in d.vals
    ensures forall k :: k in d.order[..n + 1] ==> k in d.vals
    ensures var before := UnreportedIds(d.order[..n], d.vals) + d.order[n..];
      var next := UnreportedIds(d.order[..n + 1], d.vals) + d.order[n + 1..];
      next == if d.vals[d.order[n]].reportedSinceTerminal then Without(before, d.order[n]) else before
  {
    var x := d.order[n];
    var kept := UnreportedIds(d.order[..n], d.vals);
    assert d.order[..n + 1] == d.order[..n] + [x];
    UnreportedSnoc(d.order[..n], x, d.vals);
    FreshAt(d.order, n);
    WithoutAfter(kept, d.order, n);
    MoveCursor(kept, d.order, n);
  }

  lemma {:induction false} MoveCursor(kept: seq<TaskId>, ids: seq<TaskId>, n: nat)
    requires n < |ids|
    ensures kept + [ids[n]] + ids[n + 1..] == kept + ids[n..]
    ensures kept + [] == kept
  {
    assert ids[n..] == [ids[n]] + ids[n + 1..];
  }

  lemma {:induction false} ReclaimDone(d: OrderedDict<Task>, cur: OrderedDict<Task>)
    requires d.Valid() && ReclaimedUpTo(d, cur, |d.order|)
    ensures cur == Unreported(d)
  {
    assert d.order[..|d.order|] == d.order;
    assert cur.vals == Unreported(d).vals;
  }

  function Excess(d: OrderedDict<Task>): (n: nat)
    ensures n <= |d.order|
  {
    if |d.order| > MAX_TERMINAL then |d.order| - MAX_TERMINAL else 0
  }

  /** Only the newest 64 entries stay, in the order and with the values they had. */
  lemma {:induction false} CappedIsSuffix(d: OrderedDict<Task>)
    requires d.Valid()
    ensures var r := Capped(d);
      && r.order == d.order[Excess(d)..]
      && (forall k :: k in r.vals <==> k in d.order[Excess(d)..])
      && (forall k :: k in r.vals ==> k in d.vals && r.vals[k] == d.vals[k])
  {
    CappedOrder(d);
    CappedValues(d);
    assert forall k :: k in Capped(d).vals <==> k in Capped(d).order;
  }

  lemma {:induction false} CappedOrder(d: OrderedDict<Task>)
    requires d.Valid()
    ensures Capped(d).order == d.order[Excess(d)..]
    decreases |d.order|
  {
    if Excess(d) > 0 {
      var next := d.Pop(d.order[0]);
      PopFirst(d);
      CappedOrder(next);
      assert next.order == d.order[1..] && Excess(next) == Excess(d) - 1;
      assert d.order[1..][Excess(d) - 1..] == d.order[Excess(d)..];
    }
  }

  lemma {:induction false} CappedValues(d: OrderedDict<Task>)
    requires d.Valid()
    ensures forall k :: k in Capped(d).vals ==> k in d.vals && Capped(d).vals[k] == d.vals[k]
    decreases |d.order|
  {
    if Excess(d) > 0 {
      PopFirst(d);
      CappedValues(d.Pop(d.order[0]));
    }
  }

  lemma {:induction false} PopFirst(d: OrderedDict<Task>)
    requires d.Valid() && d.order != []
    ensures d.Pop(d.order[0]).order == d.order[1..]
  {
    assert IndexOf(d.order, d.order[0]) == 0;
  }

  // ---------------------------------------------------------------------------
  // Snapshot for the report
  // ---------------------------------------------------------------------------

  /** What a report carries; reserved tasks are shown as queued. */
  datatype QueueSnapshot = QueueSnapshot(queued: seq<Task>, running: seq<Task>, recentlyEnded: seq<Task>)

  function SnapshotOf(q: QueueState): QueueSnapshot
    requires QueueInv(q)
  {
    QueueSnapshot(q.queued.Values() + q.reserved.Values(), q.running.Values(), q.terminal.Values())
  }

  function Marked(d: OrderedDict<Task>): OrderedDict<Task> {
    OrderedDict(d.order, map k | k in d.vals :: d.vals[k].(reportedSinceTerminal := true))
  }

  function MarkReported(q: QueueState): (r: QueueState)
    requires QueueInv(q)
    ensures QueueInv(r)
  {
    q.(terminal := Marked(q.terminal))
  }

  /** One turn of the reporting loop: the first `n` entries carry the flag. */
  ghost predicate MarkedUpTo(d: OrderedDict<Task>, vals: map<TaskId, Task>, n: nat)
    requires d.Valid() && n <= |d.order|
  {
    && vals.Keys == d.vals.Keys
    && forall k :: k in vals ==> vals[k] == if k in d.order[..n] then d.vals[k].(reportedSinceTerminal := true) else d.vals[k]
  }

  lemma {:induction false} MarkStep(d: OrderedDict<Task>, vals: map<TaskId, Task>, n: nat)
    requires d.Valid() && n < |d.order| && MarkedUpTo(d, vals, n)
    ensures d.order[n] in vals && vals[d.order[n]] == d.vals[d.order[n]]
    ensures MarkedUpTo(d, vals[d.order[n] := d.vals[d.order[n]].(reportedSinceTerminal := true)], n + 1)
  {
    var x := d.order[n];
    FreshAt(d.order, n);
    assert d.order[..n + 1] == d.order[..n] + [x];
  }

  lemma {:induction false} MarkDone(d: OrderedDict<Task>, vals: map<TaskId, Task>)
    requires d.Valid() && MarkedUpTo(d, vals, |d.order|)
    ensures vals == Marked(d).vals
  {
    assert d.order[..|d.order|] == d.order;
  }
}
