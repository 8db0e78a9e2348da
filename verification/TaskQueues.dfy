/** The in-memory task container: four collections and two observation buffers, updated in place.
    Each method's effect is tied to the operation of the same name in QueueSpec. */
module TaskQueues {
  import opened Basics
  import opened Models
  import opened OrderedDicts
  import opened Sorting
  import Q = QueueSpec

  class TaskQueue {
    var queued: OrderedDict<Task>
    var reserved: OrderedDict<Task>
    var running: OrderedDict<Task>
    var terminal: OrderedDict<Task>
    var completions: seq<Q.Completion>
    var runtimes: seq<Q.RuntimeObservation>

    ghost function State(): Q.QueueState
      reads this
    {
      Q.QueueState(queued, reserved, running, terminal, completions, runtimes)
    }

    ghost predicate Valid()
      reads this
    {
      Q.QueueInv(State())
    }

    constructor ()
      ensures Valid() && State() == Q.EMPTY_QUEUE
    {
      queued, reserved, running, terminal := Empty(), Empty(), Empty(), Empty();
      completions, runtimes := [], [];
    }

    method PushCompletion(c: Q.Completion)
      requires Valid()
      modifies `completions
      ensures Valid() && State() == old(State()).(completions := old(completions) + [c])
    {
      completions := completions + [c];
    }

    method PushRuntime(o: Q.RuntimeObservation)
      requires Valid()
      modifies `runtimes
      ensures Valid() && State() == old(State()).(runtimes := old(runtimes) + [o])
    {
      runtimes := runtimes + [o];
    }

    method Get(id: TaskId) returns (t: Option<Task>)
      requires Valid()
      ensures t == State().Get(id)
      ensures t.Some? <==> id in State().Ids()
      ensures t.Some? ==> t.value.id == id
      ensures id in queued.vals ==> t == Some(queued.vals[id]) && t.value.status.Queued?
      ensures id in reserved.vals ==> t == Some(reserved.vals[id]) && t.value.status.Reserved?
      ensures id in running.vals ==> t == Some(running.vals[id]) && t.value.status.Running?
      ensures id in terminal.vals ==> t == Some(terminal.vals[id]) && t.value.status.IsTerminal()
    {
      if id in queued.vals { return Some(queued.vals[id]); }
      if id in reserved.vals { return Some(reserved.vals[id]); }
      if id in running.vals { return Some(running.vals[id]); }
      return terminal.Get(id);
    }

    /** Rebuilds the queued dictionary entry by entry in sorted order. */
    method ReorderQueued()
      requires queued.Valid()
      modifies `queued
      ensures queued == Q.Reordered(old(queued))
    {
      var items := StableSort(queued.Items(), Q.KeyLe);
      Q.ReorderedCorrect(queued);
      Q.ReorderedItems(queued);
      ghost var result := Q.Reordered(queued);
      queued := Empty();
      for n := 0 to |items|
        invariant Q.RebuiltUpTo(result, queued, n)
      {
        assert items[n].0 == result.order[n] && items[n].1 == result.vals[result.order[n]];
        Q.RebuildStep(result, queued, n);
        queued := Put(queued, items[n].0, items[n].1);
      }
      Q.RebuildDone(result, queued);
    }

    method Submit(spec: TaskSpec, id: TaskId, now: real) returns (task: Task)
      requires Valid() && id !in State().Ids()
      modifies this
      ensures Valid() && State() == Q.Submit(old(State()), spec, id, now)
      ensures task == Q.NewTask(spec, id, now)
    {
      ghost var next := Q.Submit(State(), spec, id, now);
      task := Q.NewTask(spec, id, now);
      queued := Put(queued, id, task);
      ReorderQueued();
      assert State() == next;
    }

    method SetPriority(id: TaskId, priority: int) returns (updated: bool)
      requires Valid()
      modifies this
      ensures Valid() && State() == Q.SetPriority(old(State()), id, priority)
      ensures updated <==> id in old(queued).vals
    {
      if id !in queued.vals {
        return false;
      }
      ghost var next := Q.SetPriority(State(), id, priority);
      queued := Put(queued, id, queued.vals[id].(priority := priority));
      ReorderQueued();
      assert State() == next;
      return true;
    }

    method Reserve(id: TaskId, gpus: seq<int>, deadline: Option<real>, now: real)
      requires Valid() && id in queued.vals
      modifies this
      ensures Valid() && State() == Q.Reserve(old(State()), id, gpus, deadline, now)
    {
      ghost var next := Q.Reserve(State(), id, gpus, deadline, now);
      var task := queued.vals[id];
      queued := queued.Pop(id);
      var declared := if task.vramMode.ExclusiveAuto? then 0 else task.requestedVramMb.GetOr(task.requireVramMb);
      task := task.(status := Reserved, assignedGpus := Some(gpus), reservedAt := Some(now),
                    attachDeadline := deadline, declaredVramPerGpu := Some(declared));
      reserved := Put(reserved, id, task);
      assert State() == next;
    }

    method Start(id: TaskId, pid: int, now: real)
      requires Valid() && id in reserved.vals
      modifies this
      ensures Valid() && State() == Q.Start(old(State()), id, pid, now)
    {
      ghost var next := Q.Start(State(), id, pid, now);
      var task := reserved.vals[id].(status := Running, pid := Some(pid), startedAt := Some(now));
      reserved := reserved.Pop(id);
      running := Put(running, id, task);
      assert State() == next;
    }

    method TransitionToTerminal(task: Task, status: TaskStatus, reason: EndReason, timestamp: real,
          exitCode: Option<int>)
      requires Valid() && status.IsTerminal()
      modifies `queued, `reserved, `running, `terminal
      ensures Valid() && State() == Q.Finish(old(State()), Q.AsEnded(task, status, reason, timestamp, exitCode))
    {
      ghost var next := Q.Finish(State(), Q.AsEnded(task, status, reason, timestamp, exitCode));
      running := running.Pop(task.id);
      reserved := reserved.Pop(task.id);
      queued := queued.Pop(task.id);
      terminal := Put(terminal, task.id,
        task.(status := status, endReason := Some(reason), finishedAt := Some(timestamp), exitCode := exitCode,
              reportedSinceTerminal := false));
      assert State() == next;
    }

    method Cancel(id: TaskId, now: real) returns (found: bool)
      requires Valid()
      modifies this
      ensures Valid() && State() == Q.Cancel(old(State()), id, now)
      ensures found <==> id in old(State()).Ids()
    {
      var t := Get(id);
      if t.None? {
        return false;
      }
      TransitionToTerminal(t.value, Cancelled, CancelledByUser, now, None);
      return true;
    }

    method ConsumeCompletion(obs: Q.Completion) returns (hit: bool)
      requires Valid()
      modifies `queued, `reserved, `running, `terminal
      ensures Valid() && hit == (obs.taskId in old(running).vals)
      ensures State() ==
        if hit then Q.Finish(old(State()), Q.EndedByCompletion(old(running).vals[obs.taskId], obs)) else old(State())
    {
      if obs.taskId !in running.vals {
        return false;
      }
      var task := running.vals[obs.taskId];
      if obs.exitCode == 0 {
        TransitionToTerminal(task, Succeeded, ExitZero, obs.timestamp, Some(obs.exitCode));
      } else {
        TransitionToTerminal(task, Failed, ExitNonzero, obs.timestamp, Some(obs.exitCode));
      }
      return true;
    }

    method ConsumeCompletions() returns (ended: seq<TaskId>)
      requires Valid()
      modifies this
      ensures Valid()
      ensures State() == Q.ConsumeCompletions(old(State()), old(completions)).0.(completions := [])
      ensures ended == Q.ConsumeCompletions(old(State()), old(completions)).1
    {
      ended := [];
      ghost var goal := Q.ConsumeCompletions(State(), completions);
      var n := 0;
      while n < |completions|
        invariant Valid() && 0 <= n <= |completions| && completions == old(completions)
        invariant goal.0 == Q.ConsumeCompletions(State(), completions[n..]).0
        invariant goal.1 == ended + Q.ConsumeCompletions(State(), completions[n..]).1
      {
        Q.CompletionsFrom(State(), completions, n);
        var hit := ConsumeCompletion(completions[n]);
        ended := if hit then ended + [completions[n].taskId] else ended;
        n := n + 1;
      }
      assert completions[n..] == [] && State() == goal.0 && ended == goal.1;
      completions := [];
    }

    method ConsumeRuntime(obs: Q.RuntimeObservation) returns (hit: bool)
      requires Valid()
      modifies `queued, `reserved, `running, `terminal
      ensures Valid() && hit == (obs.taskId in old(State()).Live())
      ensures State() ==
        if hit then Q.Finish(old(State()), Q.EndedByRuntime(old(State()).Live()[obs.taskId], obs)) else old(State())
    {
      var task := if obs.taskId in running.vals then running.Get(obs.taskId) else reserved.Get(obs.taskId);
      // The source also skips a task that is already terminal; no running or reserved task is.
      if task.Some? && !task.value.status.IsTerminal() {
        TransitionToTerminal(task.value, Abnormal, obs.reason, obs.timestamp, None);
        return true;
      }
      return false;
    }

    method ConsumeRuntimes() returns (ended: seq<TaskId>)
      requires Valid()
      modifies this
      ensures Valid()
      ensures State() == Q.ConsumeRuntimes(old(State()), old(runtimes)).0.(runtimes := [])
      ensures ended == Q.ConsumeRuntimes(old(State()), old(runtimes)).1
    {
      ended := [];
      ghost var goal := Q.ConsumeRuntimes(State(), runtimes);
      var n := 0;
      while n < |runtimes|
        invariant Valid() && 0 <= n <= |runtimes| && runtimes == old(runtimes)
        invariant goal.0 == Q.ConsumeRuntimes(State(), runtimes[n..]).0
        invariant goal.1 == ended + Q.ConsumeRuntimes(State(), runtimes[n..]).1
      {
        Q.RuntimesFrom(State(), runtimes, n);
        var hit := ConsumeRuntime(runtimes[n]);
        ended := if hit then ended + [runtimes[n].taskId] else ended;
        n := n + 1;
      }
      assert runtimes[n..] == [] && State() == goal.0 && ended == goal.1;
      runtimes := [];
    }

    /** Removes the terminal tasks that were reported at least once. */
    method ReclaimReported()
      requires terminal.Valid()
      modifies `terminal
      ensures terminal == Q.Unreported(old(terminal))
    {
      ghost var d := terminal;
      var ids := terminal.order;
      assert ids[..0] == [];
      for n := 0 to |ids|
        invariant Q.ReclaimedUpTo(d, terminal, n)
      {
        Q.ReclaimStep(d, terminal, n);
        if terminal.vals[ids[n]].reportedSinceTerminal {
          terminal := terminal.Pop(ids[n]);
        }
      }
      Q.ReclaimDone(d, terminal);
    }

    /** Drops the oldest terminal tasks until at most 64 are left. */
    method CapTerminal()
      requires terminal.Valid()
      modifies `terminal
      ensures terminal == Q.Capped(old(terminal))
    {
      while |terminal.order| > Q.MAX_TERMINAL
        invariant terminal.Valid()
        invariant Q.Capped(terminal) == Q.Capped(old(terminal))
        decreases |terminal.order|
      {
        terminal := terminal.Pop(terminal.order[0]);
      }
    }

    /** The sole driver of end transitions. Returns the tasks that ended now. */
    method Tick() returns (newlyTerminal: seq<TaskId>)
      requires Valid()
      modifies this
      ensures Valid()
      ensures State() == Q.Tick(old(State())).0 && newlyTerminal == Q.Tick(old(State())).1
    {
      ghost var q := State();
      var byExit := ConsumeCompletions();
      ghost var q1 := State();
      var byMonitor := ConsumeRuntimes();
      ghost var q2 := State();
      ReclaimReported();
      CapTerminal();
      newlyTerminal := byExit + byMonitor;
      Q.TickParts(q, q1, q2, byExit, byMonitor);
      ghost var r := State();
      assert r == q2.(terminal := Q.Capped(Q.Unreported(q2.terminal)));
      assert r == Q.Tick(q).0;
    }

    /** Lists the terminal tasks and sets their reported flags. */
    method ReportTerminal() returns (ended: seq<Task>)
      requires terminal.Valid()
      modifies `terminal
      ensures terminal == Q.Marked(old(terminal)) && ended == old(terminal).Values()
    {
      ghost var d, all := terminal, terminal.Values();
      ended := [];
      var ids := terminal.order;
      for n := 0 to |ids|
        invariant terminal.order == ids && ended == all[..n]
        invariant Q.MarkedUpTo(d, terminal.vals, n)
      {
        Q.MarkStep(d, terminal.vals, n);
        var task := terminal.vals[ids[n]];
        assert all[..n + 1] == all[..n] + [task];
        ended := ended + [task];
        terminal := Put(terminal, ids[n], task.(reportedSinceTerminal := true));
      }
      Q.MarkDone(d, terminal.vals);
      assert all[..|ids|] == all;
    }

    /** Builds the reported view and marks every terminal task as reported. */
    method ToSnapshot() returns (snapshot: Q.QueueSnapshot)
      requires Valid()
      modifies `terminal
      ensures Valid() && State() == Q.MarkReported(old(State()))
      ensures snapshot == Q.SnapshotOf(old(State()))
    {
      ghost var next := Q.MarkReported(State());
      var ended := ReportTerminal();
      snapshot := Q.QueueSnapshot(queued.Values() + reserved.Values(), running.Values(), ended);
      assert State() == next;
    }
  }
}
