/** What a summary says about the processes of its GPU, in terms of the tasks and the processes alone: whose process is
    whose, what counts as other users' memory, and what a card's readings become. */
module AttributionMeaning {
  import opened Basics
  import opened Models
  import opened Attribution
  import opened AttributionFacts
  import Loads
  import Node
  import Scheduling

  // ---------------------------------------------------------------------------
  // Whose process it is
  // ---------------------------------------------------------------------------

  /** The task at place `n` has the pid, and no task behind it does. */
  predicate OwnsAt(tasks: seq<Task>, pid: int, n: int) {
    0 <= n < |tasks| && tasks[n].pid == Some(pid) && forall m :: n < m < |tasks| ==> tasks[m].pid != Some(pid)
  }

  predicate HasPid(tasks: seq<Task>, pid: int) {
    exists n :: 0 <= n < |tasks| && tasks[n].pid == Some(pid)
  }

  predicate DistinctPids(tasks: seq<Task>) {
    forall i, j :: 0 <= i < j < |tasks| && tasks[i].pid.Some? ==> tasks[i].pid != tasks[j].pid
  }

  lemma {:induction false} HasPidSnoc(tasks: seq<Task>, last: Task, pid: int)
    ensures HasPid(tasks + [last], pid) <==> HasPid(tasks, pid) || last.pid == Some(pid)
  {
    if n :| 0 <= n < |tasks| && tasks[n].pid == Some(pid) { assert (tasks + [last])[n].pid == Some(pid); }
    if last.pid == Some(pid) { assert (tasks + [last])[|tasks|].pid == Some(pid); }
  }

  lemma {:induction false} OwnsSnoc(tasks: seq<Task>, last: Task, pid: int, n: int)
    requires OwnsAt(tasks, pid, n) && last.pid != Some(pid)
    ensures OwnsAt(tasks + [last], pid, n) && (tasks + [last])[n] == tasks[n]
  {
  }

  ghost predicate OwnedBy(tasks: seq<Task>, pid: int, t: Task) {
    exists n :: OwnsAt(tasks, pid, n) && tasks[n] == t
  }

  /** A pid belongs to the last listed task that has it, and to nobody if no task does. */
  lemma {:induction false} OwnersMean(tasks: seq<Task>, pid: int)
    ensures pid in PidOwners(tasks) <==> HasPid(tasks, pid)
    ensures pid in PidOwners(tasks) ==> OwnedBy(tasks, pid, PidOwners(tasks)[pid])
    decreases |tasks|
  {
    if tasks != [] {
      var front, last := Init(tasks), Last(tasks);
      assert tasks == front + [last];
      OwnersMean(front, pid);
      HasPidSnoc(front, last, pid);
      if last.pid == Some(pid) {
        assert OwnsAt(tasks, pid, |front|);
      } else if pid in PidOwners(front) {
        var n :| OwnsAt(front, pid, n) && front[n] == PidOwners(front)[pid];
        OwnsSnoc(front, last, pid, n);
      }
    }
  }

  /** The processes on GPU `g` that a task has (`ours`), or that no task has, in order. */
  function On(procs: seq<GpuProcess>, tasks: seq<Task>, g: int, ours: bool): (r: seq<GpuProcess>)
    ensures forall p :: p in r <==> p in procs && p.gpuIndex == g && HasPid(tasks, p.pid) == ours
  {
    if procs == [] then []
    else
      var p := Last(procs);
      assert procs == Init(procs) + [p];
      if p.gpuIndex == g && HasPid(tasks, p.pid) == ours then On(Init(procs), tasks, g, ours) + [p]
      else On(Init(procs), tasks, g, ours)
  }

  /** The entry says that task `t` uses `p.usedMb` on `p`'s GPU through `p`. */
  predicate EntryFor(a: TaskAllocation, t: Task, p: GpuProcess) {
    a.taskId == t.id && a.gpuIndex == p.gpuIndex && a.pid == Some(p.pid) && a.actualMb == p.usedMb
    && a.declaredMb == Declared(t, p.gpuIndex) && a.exclusiveActive == ExclusiveActive(t, p.gpuIndex)
  }

  /** The entry is that of the task that owns the process. */
  ghost predicate OwnersEntry(a: TaskAllocation, tasks: seq<Task>, p: GpuProcess) {
    exists n :: OwnsAt(tasks, p.pid, n) && EntryFor(a, tasks[n], p)
  }

  /** One entry for each process of a task, in order. */
  ghost predicate EntriesFor(s: seq<TaskAllocation>, tasks: seq<Task>, ps: seq<GpuProcess>) {
    |s| == |ps| && forall k :: 0 <= k < |s| ==> OwnersEntry(s[k], tasks, ps[k])
  }

  lemma {:induction false} OwnEntries(tasks: seq<Task>, procs: seq<GpuProcess>, g: int)
    ensures EntriesFor(ProcessAllocations(PidOwners(tasks), procs, g), tasks, On(procs, tasks, g, true))
    decreases |procs|
  {
    if procs != [] {
      var p, owners := Last(procs), PidOwners(tasks);
      OwnEntries(tasks, Init(procs), g);
      OwnersMean(tasks, p.pid);
      if p.gpuIndex == g && p.pid in owners {
        var n :| OwnsAt(tasks, p.pid, n) && tasks[n] == owners[p.pid];
        assert EntryFor(AllocationOf(owners[p.pid], g, p.usedMb, Some(p.pid)), tasks[n], p);
      }
    }
  }

  function UsersAmong(ps: seq<GpuProcess>): seq<UserProcess> {
    if ps == [] then []
    else if Last(ps).owner.Some? then
      UsersAmong(Init(ps)) + [UserProcess(Last(ps).pid, Last(ps).owner.value, Last(ps).gpuIndex, Last(ps).usedMb)]
    else UsersAmong(Init(ps))
  }

  function UnknownsAmong(ps: seq<GpuProcess>): seq<UnknownProcess> {
    if ps == [] then []
    else if Last(ps).owner.None? then
      UnknownsAmong(Init(ps)) + [UnknownProcess(Last(ps).pid, Last(ps).gpuIndex, Last(ps).usedMb)]
    else UnknownsAmong(Init(ps))
  }

  lemma {:induction false} ForeignEntries(tasks: seq<Task>, procs: seq<GpuProcess>, g: int)
    ensures UsersOn(PidOwners(tasks), procs, g) == UsersAmong(On(procs, tasks, g, false))
    ensures UnknownsOn(PidOwners(tasks), procs, g) == UnknownsAmong(On(procs, tasks, g, false))
    decreases |procs|
  {
    if procs != [] {
      ForeignEntries(tasks, Init(procs), g);
      OwnersMean(tasks, Last(procs).pid);
      InitSnoc(On(Init(procs), tasks, g, false), Last(procs));
    }
  }

  lemma {:induction false} AmongMb(ps: seq<GpuProcess>)
    ensures UserMb(UsersAmong(ps)) + UnknownMb(UnknownsAmong(ps)) == ProcessMb(ps)
    decreases |ps|
  {
    if ps != [] { AmongMb(Init(ps)); }
  }

  /** The summary of a GPU lists first, in order, one entry for each process that a task has, with that task's id and
      declaration and the process's own pid and memory; its user and unknown entries are exactly the processes that no task
      has, split by whether an owner is known; so its unmanaged memory is the memory of exactly those. */
  lemma {:induction false} SummaryExactly(procs: seq<GpuProcess>, tasks: seq<Task>, node: NodeReadings, i: nat)
    requires i < |Attributed(procs, tasks, node)|
    ensures var gpu := Attributed(procs, tasks, node)[i];
      var ours, others := On(procs, tasks, gpu.gpuIndex, true), On(procs, tasks, gpu.gpuIndex, false);
      && |ours| <= |gpu.pmeowTasks| && EntriesFor(gpu.pmeowTasks[..|ours|], tasks, ours)
      && gpu.userProcesses == UsersAmong(others) && gpu.unknownProcesses == UnknownsAmong(others)
      && Scheduling.UnmanagedMb(gpu) == ProcessMb(others)
  {
    var gpu := Attributed(procs, tasks, node)[i];
    var g := gpu.gpuIndex;
    OwnEntries(tasks, procs, g);
    ForeignEntries(tasks, procs, g);
    AmongMb(On(procs, tasks, g, false));
    var byProcess := ProcessAllocations(PidOwners(tasks), procs, g);
    assert gpu.pmeowTasks[..|byProcess|] == byProcess;
  }

  lemma {:induction false} OnlyOwner(tasks: seq<Task>, t: Task, p: GpuProcess, a: TaskAllocation)
    requires DistinctPids(tasks) && t in tasks && t.pid == Some(p.pid) && OwnersEntry(a, tasks, p)
    ensures EntryFor(a, t, p)
  {
    var n :| 0 <= n < |tasks| && tasks[n] == t;
    var m :| OwnsAt(tasks, p.pid, m) && EntryFor(a, tasks[m], p);
    assert tasks[n].pid == Some(p.pid);
    assert m == n;
  }

  lemma {:induction false} EntryOfProcess(s: seq<TaskAllocation>, tasks: seq<Task>, ps: seq<GpuProcess>, p: GpuProcess)
    returns (a: TaskAllocation)
    requires EntriesFor(s, tasks, ps) && p in ps
    ensures a in s && OwnersEntry(a, tasks, p)
  {
    var k :| 0 <= k < |ps| && ps[k] == p;
    a := s[k];
  }

  /** Where no two tasks have one pid, a process with a task's pid is listed under that task. */
  lemma {:induction false} ProcessIsListed(procs: seq<GpuProcess>, tasks: seq<Task>, node: NodeReadings, i: nat, t: Task,
        p: GpuProcess)
    requires i < |Attributed(procs, tasks, node)| && DistinctPids(tasks)
    requires t in tasks && p in procs && t.pid == Some(p.pid) && p.gpuIndex == Attributed(procs, tasks, node)[i].gpuIndex
    ensures exists a :: a in Attributed(procs, tasks, node)[i].pmeowTasks && EntryFor(a, t, p)
  {
    var s := Attributed(procs, tasks, node)[i].pmeowTasks;
    var ours := On(procs, tasks, p.gpuIndex, true);
    SummaryExactly(procs, tasks, node, i);
    var n :| 0 <= n < |tasks| && tasks[n] == t;
    assert HasPid(tasks, p.pid);
    var a := EntryOfProcess(s[..|ours|], tasks, ours, p);
    OnlyOwner(tasks, t, p, a);
  }

  // ---------------------------------------------------------------------------
  // The entries without a process
  // ---------------------------------------------------------------------------

  /** The task has a process on the GPU. */
  ghost predicate RunsOn(procs: seq<GpuProcess>, tasks: seq<Task>, id: TaskId, g: int) {
    exists p, n :: p in procs && p.gpuIndex == g && OwnsAt(tasks, p.pid, n) && tasks[n].id == id
  }

  lemma {:induction false} ObservedMeans(tasks: seq<Task>, procs: seq<GpuProcess>, id: TaskId, g: int)
    ensures (id, g) in Observed(PidOwners(tasks), procs) <==> RunsOn(procs, tasks, id, g)
    decreases |procs|
  {
    if procs != [] {
      var p, front := Last(procs), Init(procs);
      assert procs == front + [p];
      ObservedMeans(tasks, front, id, g);
      OwnersMean(tasks, p.pid);
      if RunsOn(front, tasks, id, g) {
        var x, n :| x in front && x.gpuIndex == g && OwnsAt(tasks, x.pid, n) && tasks[n].id == id;
        assert x in procs;
      }
      if p.pid in PidOwners(tasks) && PidOwners(tasks)[p.pid].id == id && p.gpuIndex == g {
        var n :| OwnsAt(tasks, p.pid, n) && tasks[n] == PidOwners(tasks)[p.pid];
        assert p in procs;
      }
      if RunsOn(procs, tasks, id, g) && !RunsOn(front, tasks, id, g) {
        var x, n :| x in procs && x.gpuIndex == g && OwnsAt(tasks, x.pid, n) && tasks[n].id == id;
        assert x == p;
        var m :| OwnsAt(tasks, p.pid, m) && tasks[m] == PidOwners(tasks)[p.pid];
        assert m == n;
      }
    }
  }

  /** The entry of a task without a process on the GPU. */
  predicate SilentFor(a: TaskAllocation, t: Task, g: int) {
    a.taskId == t.id && a.gpuIndex == g && a.pid == t.pid && a.actualMb == 0.0
    && a.declaredMb == Declared(t, g) && a.exclusiveActive == ExclusiveActive(t, g)
  }

  ghost predicate SilentAt(seen: set<(TaskId, int)>, pairs: seq<(Task, int)>, g: int, a: TaskAllocation) {
    exists i :: 0 <= i < |pairs| && pairs[i].1 == g && (pairs[i].0.id, g) !in seen && SilentFor(a, pairs[i].0, g)
  }

  ghost predicate IdsDistinct(s: seq<TaskAllocation>) {
    forall i, j :: 0 <= i < j < |s| ==> s[i].taskId != s[j].taskId
  }

  lemma {:induction false} SilentMeans(seen: set<(TaskId, int)>, pairs: seq<(Task, int)>, g: int)
    ensures var s := SilentAllocations(seen, pairs, g);
      && IdsDistinct(s) && (forall k :: 0 <= k < |s| ==> SilentAt(seen, pairs, g, s[k]))
      && (forall k :: 0 <= k < |s| ==> (s[k].taskId, g) in PairIds(pairs))
    decreases |pairs|
  {
    if pairs != [] {
      var front := Init(pairs);
      var (t, gpu) := Last(pairs);
      SilentMeans(seen, front, g);
      var was, s := SilentAllocations(seen, front, g), SilentAllocations(seen, pairs, g);
      assert pairs == front + [(t, gpu)];
      PairIdsSnoc(front, t, gpu);
      forall k | 0 <= k < |was|
        ensures SilentAt(seen, pairs, g, was[k])
      {
        assert SilentAt(seen, front, g, was[k]);
        var i :| 0 <= i < |front| && front[i].1 == g && (front[i].0.id, g) !in seen && SilentFor(was[k], front[i].0, g);
        assert pairs[i] == front[i];
      }
      if |s| > |was| { assert SilentFor(s[|was|], pairs[|front|].0, g); }
    }
  }

  lemma {:induction false} ClaimsMean(tasks: seq<Task>)
    ensures forall i :: 0 <= i < |Claims(tasks)| ==> Claims(tasks)[i].0 in tasks && AssignedTo(Claims(tasks)[i].0, Claims(tasks)[i].1)
    decreases |tasks|
  {
    if tasks != [] {
      ClaimsMean(Init(tasks));
      assert tasks == Init(tasks) + [Last(tasks)];
      var mine := PairsOf(Last(tasks), Last(tasks).assignedGpus.GetOr([]));
      assert forall i :: 0 <= i < |mine| ==> mine[i].0 == Last(tasks) && AssignedTo(mine[i].0, mine[i].1);
    }
  }

  /** The entry is that of a task that is assigned to the GPU and has no process there. */
  ghost predicate WaitingEntry(a: TaskAllocation, procs: seq<GpuProcess>, tasks: seq<Task>, g: int) {
    exists t :: t in tasks && AssignedTo(t, g) && !RunsOn(procs, tasks, t.id, g) && SilentFor(a, t, g)
  }

  lemma {:induction false} SilentIsWaiting(a: TaskAllocation, procs: seq<GpuProcess>, tasks: seq<Task>, g: int)
    requires SilentAt(Observed(PidOwners(tasks), procs), Claims(tasks), g, a)
    ensures WaitingEntry(a, procs, tasks, g)
  {
    var pairs, seen := Claims(tasks), Observed(PidOwners(tasks), procs);
    var j :| 0 <= j < |pairs| && pairs[j].1 == g && (pairs[j].0.id, g) !in seen && SilentFor(a, pairs[j].0, g);
    ClaimsMean(tasks);
    ObservedMeans(tasks, procs, pairs[j].0.id, g);
  }

  ghost predicate AllWaiting(s: seq<TaskAllocation>, procs: seq<GpuProcess>, tasks: seq<Task>, g: int) {
    IdsDistinct(s) && forall k :: 0 <= k < |s| ==> WaitingEntry(s[k], procs, tasks, g)
  }

  lemma {:induction false} SilentAreWaiting(procs: seq<GpuProcess>, tasks: seq<Task>, g: int)
    ensures AllWaiting(SilentAllocations(Observed(PidOwners(tasks), procs), Claims(tasks), g), procs, tasks, g)
  {
    var seen := Observed(PidOwners(tasks), procs);
    var s := SilentAllocations(seen, Claims(tasks), g);
    SilentMeans(seen, Claims(tasks), g);
    forall k | 0 <= k < |s|
      ensures WaitingEntry(s[k], procs, tasks, g)
    {
      SilentIsWaiting(s[k], procs, tasks, g);
    }
  }

  /** Behind the entries of processes the summary lists, once each, only tasks that are assigned to the GPU and have no
      process there, with no memory used. */
  lemma {:induction false} RestIsWaiting(procs: seq<GpuProcess>, tasks: seq<Task>, node: NodeReadings, i: nat)
    requires i < |Attributed(procs, tasks, node)|
    ensures var gpu := Attributed(procs, tasks, node)[i];
      var n := |On(procs, tasks, gpu.gpuIndex, true)|;
      n <= |gpu.pmeowTasks| && AllWaiting(gpu.pmeowTasks[n..], procs, tasks, gpu.gpuIndex)
  {
    var gpu := Attributed(procs, tasks, node)[i];
    var g := gpu.gpuIndex;
    OwnEntries(tasks, procs, g);
    SilentAreWaiting(procs, tasks, g);
    var byProcess := ProcessAllocations(PidOwners(tasks), procs, g);
    assert gpu.pmeowTasks[|byProcess|..] == SilentAllocations(Observed(PidOwners(tasks), procs), Claims(tasks), g);
  }

  // ---------------------------------------------------------------------------
  // A card's readings
  // ---------------------------------------------------------------------------

  predicate DistinctIndices(cards: seq<GpuCard>) {
    forall i, j :: 0 <= i < j < |cards| ==> cards[i].index != cards[j].index
  }

  lemma {:induction false} TableAt(cards: seq<GpuCard>, value: GpuCard -> real, n: nat)
    requires DistinctIndices(cards) && n < |cards|
    ensures MapGet(Node.CardTable(cards, value), cards[n].index) == value(cards[n])
    decreases |cards|
  {
    if n < |cards| - 1 { TableAt(Init(cards), value, n); }
  }

  /** The summary of a card shows the card's own total and utilization, and as memory used the card's own figure or the
      memory of the processes on it, whichever is more. */
  lemma {:induction false} CardShown(procs: seq<GpuProcess>, tasks: seq<Task>, cards: seq<GpuCard>, i: nat, n: nat)
    requires DistinctIndices(cards) && n < |cards| && i < |Attributed(procs, tasks, Node.Readings(cards))|
    requires Attributed(procs, tasks, Node.Readings(cards))[i].gpuIndex == cards[n].index
    ensures var gpu, mb := Attributed(procs, tasks, Node.Readings(cards))[i], ProcessMbOn(procs, cards[n].index);
      && gpu.totalMb == cards[n].totalMb && gpu.utilization == cards[n].utilization
      && gpu.usedMb == if mb < cards[n].usedMb then cards[n].usedMb else mb
  {
    TableAt(cards, (c: GpuCard) => c.totalMb, n);
    TableAt(cards, (c: GpuCard) => c.usedMb, n);
    TableAt(cards, (c: GpuCard) => c.utilization, n);
    AttributedOnGpu(procs, tasks, Node.Readings(cards), i);
  }

  // ---------------------------------------------------------------------------
  // The managed memory of a ledger
  // ---------------------------------------------------------------------------

  /** The entries are those of the live tasks on the GPU, one for each. */
  ghost predicate ListsLive(s: seq<TaskAllocation>, live: map<TaskId, Task>, g: int) {
    && IdsDistinct(s)
    && (forall k :: 0 <= k < |s| ==> s[k].taskId in live && AssignedTo(live[s[k].taskId], g))
    && (forall k :: 0 <= k < |s| ==> s[k].declaredMb == Declared(live[s[k].taskId], g) >= 0)
    && (forall id :: id in live && AssignedTo(live[id], g) ==> exists k :: 0 <= k < |s| && s[k].taskId == id)
  }

  lemma {:induction false} ListsFewer(s: seq<TaskAllocation>, live: map<TaskId, Task>, g: int)
    requires s != [] && ListsLive(s, live, g)
    ensures var id := Last(s).taskId;
      && id in live && AssignedTo(live[id], g) && Last(s).declaredMb == Declared(live[id], g) >= 0
      && ListsLive(Init(s), live - {id}, g)
  {
    var id, front := Last(s).taskId, Init(s);
    assert s[|s| - 1].taskId == id;
    var rest := live - {id};
    forall x | x in rest && AssignedTo(rest[x], g)
      ensures exists k :: 0 <= k < |front| && front[k].taskId == x
    {
      var k :| 0 <= k < |s| && s[k].taskId == x;
      assert front[k].taskId == x;
    }
  }

  /** Where a summary lists each live task on its GPU once and nothing else, the managed memory is exactly what the live
      tasks declare there. */
  lemma {:induction false} ManagedIsLoad(s: seq<TaskAllocation>, live: map<TaskId, Task>, g: int)
    requires ListsLive(s, live, g)
    ensures Scheduling.ManagedMb(s) == Loads.Load(live, g)
    decreases |s|
  {
    if s == [] {
      Loads.LoadNone(live, g);
    } else {
      var id := Last(s).taskId;
      ListsFewer(s, live, g);
      Loads.LoadSplit(live, id, g);
      ManagedIsLoad(Init(s), live - {id}, g);
    }
  }
}
