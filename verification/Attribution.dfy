/** Who owns each GPU process, and how much of each GPU every live task has declared. */
module Attribution {
  import opened Basics
  import opened Models

  // ---------------------------------------------------------------------------
  // A task's claim on one GPU
  // ---------------------------------------------------------------------------

  function ReclaimedOn(t: Task, g: int): Option<int> {
    if t.autoReclaimedMb.Some? && g in t.autoReclaimedMb.value then t.autoReclaimedMb.value[g] else None
  }

  /** Whether `t` still owns GPU `g` exclusively. */
  predicate ExclusiveActive(t: Task, g: int) {
    t.vramMode.ExclusiveAuto? && ReclaimedOn(t, g).None?
  }

  /** The reservation of `t` on GPU `g` that the scheduler sees. */
  function Declared(t: Task, g: int): int {
    if ReclaimedOn(t, g).Some? then ReclaimedOn(t, g).value
    else if t.declaredVramPerGpu.Some? then t.declaredVramPerGpu.value
    else t.requestedVramMb.GetOr(t.requireVramMb)
  }

  predicate AssignedTo(t: Task, g: int) {
    t.assignedGpus.Some? && g in t.assignedGpus.value
  }

  // ---------------------------------------------------------------------------
  // Process ownership
  // ---------------------------------------------------------------------------

  /** The task behind each pid; of two tasks with one pid the later listed wins. */
  function PidOwners(tasks: seq<Task>): (m: map<int, Task>)
    ensures forall pid :: pid in m ==> m[pid] in tasks
  {
    if tasks == [] then map[]
    else
      var last := Last(tasks);
      var m := PidOwners(Init(tasks));
      if last.pid.Some? then m[last.pid.value := last] else m
  }

  function AllocationOf(t: Task, g: int, actualMb: real, pid: Option<int>): TaskAllocation {
    TaskAllocation(t.id, g, Declared(t, g), actualMb, ExclusiveActive(t, g), pid)
  }

  // ---------------------------------------------------------------------------
  // Buckets of one GPU
  // ---------------------------------------------------------------------------

  function ProcessAllocations(owners: map<int, Task>, procs: seq<GpuProcess>, g: int): seq<TaskAllocation> {
    if procs == [] then []
    else
      var p := Last(procs);
      var rest := ProcessAllocations(owners, Init(procs), g);
      if p.gpuIndex == g && p.pid in owners then rest + [AllocationOf(owners[p.pid], g, p.usedMb, Some(p.pid))]
      else rest
  }

  function UsersOn(owners: map<int, Task>, procs: seq<GpuProcess>, g: int): seq<UserProcess> {
    if procs == [] then []
    else
      var p := Last(procs);
      var rest := UsersOn(owners, Init(procs), g);
      if p.gpuIndex == g && p.pid !in owners && p.owner.Some? then rest + [UserProcess(p.pid, p.owner.value, g, p.usedMb)]
      else rest
  }

  function UnknownsOn(owners: map<int, Task>, procs: seq<GpuProcess>, g: int): seq<UnknownProcess> {
    if procs == [] then []
    else
      var p := Last(procs);
      var rest := UnknownsOn(owners, Init(procs), g);
      if p.gpuIndex == g && p.pid !in owners && p.owner.None? then rest + [UnknownProcess(p.pid, g, p.usedMb)]
      else rest
  }

  /** The (task, GPU) pairs that have a process. */
  function Observed(owners: map<int, Task>, procs: seq<GpuProcess>): set<(TaskId, int)> {
    if procs == [] then {}
    else
      var p := Last(procs);
      Observed(owners, Init(procs)) + (if p.pid in owners then {(owners[p.pid].id, p.gpuIndex)} else {})
  }

  function PairsOf(t: Task, gpus: seq<int>): seq<(Task, int)> {
    seq(|gpus|, i requires 0 <= i < |gpus| => (t, gpus[i]))
  }

  /** Every (task, assigned GPU) pair, in the order the tasks and their GPUs are listed. */
  function Claims(tasks: seq<Task>): seq<(Task, int)> {
    if tasks == [] then [] else Claims(Init(tasks)) + PairsOf(Last(tasks), Last(tasks).assignedGpus.GetOr([]))
  }

  function PairIds(pairs: seq<(Task, int)>): set<(TaskId, int)> {
    set i | 0 <= i < |pairs| :: (pairs[i].0.id, pairs[i].1)
  }

  /** Entries for claims on GPU `g` that no process made visible. */
  function SilentAllocations(observed: set<(TaskId, int)>, pairs: seq<(Task, int)>, g: int): seq<TaskAllocation> {
    if pairs == [] then []
    else
      var (t, gpu) := Last(pairs);
      var rest := SilentAllocations(observed, Init(pairs), g);
      if gpu == g && (t.id, gpu) !in observed + PairIds(Init(pairs)) then rest + [AllocationOf(t, g, 0.0, t.pid)]
      else rest
  }

  // ---------------------------------------------------------------------------
  // Summary per GPU
  // ---------------------------------------------------------------------------

  function MinOf(s: set<int>): (m: int)
    requires s != {}
    ensures m in s && forall x :: x in s ==> m <= x
  {
    MinExists(s);
    var m :| m in s && forall x :: x in s ==> m <= x;
    m
  }

  lemma {:induction false} MinExists(s: set<int>)
    requires s != {}
    ensures exists m :: m in s && forall x :: x in s ==> m <= x
    decreases |s|
  {
    var y := Element(s);
    if s - {y} == {} {
      assert s == {y};
    } else {
      MinExists(s - {y});
      var m :| m in s - {y} && forall x :: x in s - {y} ==> m <= x;
      var least := if y < m then y else m;
      assert least in s && forall x :: x in s ==> least <= x by {
        forall x | x in s ensures least <= x { if x != y { assert x in s - {y}; } }
      }
    }
  }

  /** Python's `sorted` on a set of indices. */
  function SortedInts(s: set<int>): (r: seq<int>)
    ensures forall x :: x in r <==> x in s
    ensures forall i, j :: 0 <= i < j < |r| ==> r[i] < r[j]
    decreases |s|
  {
    if s == {} then [] else [MinOf(s)] + SortedInts(s - {MinOf(s)})
  }

  function MapGet(m: map<int, real>, k: int): real {
    if k in m then m[k] else 0.0
  }

  function TaskMb(s: seq<TaskAllocation>): real {
    if s == [] then 0.0 else TaskMb(Init(s)) + Last(s).actualMb
  }

  function UserMb(s: seq<UserProcess>): real {
    if s == [] then 0.0 else UserMb(Init(s)) + Last(s).usedMb
  }

  function UnknownMb(s: seq<UnknownProcess>): real {
    if s == [] then 0.0 else UnknownMb(Init(s)) + Last(s).usedMb
  }

  function AttributedMb(gpu: GpuSummary): real {
    TaskMb(gpu.pmeowTasks) + UserMb(gpu.userProcesses) + UnknownMb(gpu.unknownProcesses)
  }

  /** What the collector knows about the node's cards. */
  datatype NodeReadings = NodeReadings(
    memory: map<int, real>,
    used: Option<map<int, real>>,
    utilization: Option<map<int, real>>)

  function SummaryFrom(g: int, node: NodeReadings, allocations: seq<TaskAllocation>, users: seq<UserProcess>,
    unknowns: seq<UnknownProcess>): GpuSummary
  {
    var attributed := TaskMb(allocations) + UserMb(users) + UnknownMb(unknowns);
    GpuSummary(g, MapGet(node.memory, g),
               if node.used.Some? then MaxReal(attributed, MapGet(node.used.value, g)) else attributed,
               allocations, users, unknowns,
               if node.utilization.Some? then MapGet(node.utilization.value, g) else 0.0)
  }

  function AllocationsOn(owners: map<int, Task>, procs: seq<GpuProcess>, tasks: seq<Task>,
        g: int): seq<TaskAllocation> {
    ProcessAllocations(owners, procs, g) + SilentAllocations(Observed(owners, procs), Claims(tasks), g)
  }

  function SummaryOf(owners: map<int, Task>, procs: seq<GpuProcess>, tasks: seq<Task>, node: NodeReadings,
        g: int): GpuSummary {
    SummaryFrom(g, node, AllocationsOn(owners, procs, tasks, g), UsersOn(owners, procs, g), UnknownsOn(owners, procs, g))
  }

  function GpuIndices(procs: seq<GpuProcess>, node: NodeReadings): set<int> {
    node.memory.Keys + (if node.used.Some? then node.used.value.Keys else {}) + set p | p in procs :: p.gpuIndex
  }

  function Attributed(procs: seq<GpuProcess>, tasks: seq<Task>, node: NodeReadings): Sample {
    var indices := SortedInts(GpuIndices(procs, node));
    seq(|indices|, i requires 0 <= i < |indices| =>
      SummaryOf(PidOwners(tasks), procs, tasks, node, indices[i]))
  }

  // ---------------------------------------------------------------------------
  // The in-place algorithm
  // ---------------------------------------------------------------------------

  function Bucket<T>(m: map<int, seq<T>>, g: int): seq<T> {
    if g in m then m[g] else []
  }

  function Appended<T>(m: map<int, seq<T>>, g: int, x: T): map<int, seq<T>> {
    m[g := Bucket(m, g) + [x]]
  }

  method BuildPidOwners(tasks: seq<Task>) returns (owners: map<int, Task>)
    ensures owners == PidOwners(tasks)
  {
    owners := map[];
    for n := 0 to |tasks|
      invariant owners == PidOwners(tasks[..n])
    {
      assert Init(tasks[..n + 1]) == tasks[..n];
      if tasks[n].pid.Some? {
        owners := owners[tasks[n].pid.value := tasks[n]];
      }
    }
    assert tasks[..|tasks|] == tasks;
  }

  /** The buckets of every GPU while processes are being sorted into them. */
  datatype Buckets = Buckets(
    tasks: map<int, seq<TaskAllocation>>,
    users: map<int, seq<UserProcess>>,
    unknowns: map<int, seq<UnknownProcess>>,
    observed: set<(TaskId, int)>)

  ghost predicate SortedAt(owners: map<int, Task>, procs: seq<GpuProcess>, b: Buckets, g: int) {
    && Bucket(b.tasks, g) == ProcessAllocations(owners, procs, g)
    && Bucket(b.users, g) == UsersOn(owners, procs, g)
    && Bucket(b.unknowns, g) == UnknownsOn(owners, procs, g)
  }

  ghost predicate Sorted(owners: map<int, Task>, procs: seq<GpuProcess>, b: Buckets) {
    b.observed == Observed(owners, procs) && forall g :: SortedAt(owners, procs, b, g)
  }

  function SortIn(owners: map<int, Task>, b: Buckets, p: GpuProcess): Buckets {
    if p.pid in owners then
      b.(tasks := Appended(b.tasks, p.gpuIndex, AllocationOf(owners[p.pid], p.gpuIndex, p.usedMb, Some(p.pid))),
         observed := b.observed + {(owners[p.pid].id, p.gpuIndex)})
    else if p.owner.Some? then
      b.(users := Appended(b.users, p.gpuIndex, UserProcess(p.pid, p.owner.value, p.gpuIndex, p.usedMb)))
    else
      b.(unknowns := Appended(b.unknowns, p.gpuIndex, UnknownProcess(p.pid, p.gpuIndex, p.usedMb)))
  }

  lemma {:induction false} AppendedBucket<T>(m: map<int, seq<T>>, g: int, x: T, h: int)
    ensures Bucket(Appended(m, g, x), h) == if h == g then Bucket(m, h) + [x] else Bucket(m, h)
  {
  }

  lemma {:induction false} SortInAt(owners: map<int, Task>, procs: seq<GpuProcess>, b: Buckets, p: GpuProcess, g: int)
    requires SortedAt(owners, procs, b, g)
    ensures SortedAt(owners, procs + [p], SortIn(owners, b, p), g)
  {
    InitSnoc(procs, p);
    if p.pid in owners {
      AppendedBucket(b.tasks, p.gpuIndex, AllocationOf(owners[p.pid], p.gpuIndex, p.usedMb, Some(p.pid)), g);
    } else if p.owner.Some? {
      AppendedBucket(b.users, p.gpuIndex, UserProcess(p.pid, p.owner.value, p.gpuIndex, p.usedMb), g);
    } else {
      AppendedBucket(b.unknowns, p.gpuIndex, UnknownProcess(p.pid, p.gpuIndex, p.usedMb), g);
    }
  }

  lemma {:induction false} SortInCorrect(owners: map<int, Task>, procs: seq<GpuProcess>, b: Buckets, p: GpuProcess)
    requires Sorted(owners, procs, b)
    ensures Sorted(owners, procs + [p], SortIn(owners, b, p))
  {
    InitSnoc(procs, p);
    forall g
      ensures SortedAt(owners, procs + [p], SortIn(owners, b, p), g)
    {
      assert SortedAt(owners, procs, b, g);
      SortInAt(owners, procs, b, p, g);
    }
  }

  method SortProcesses(owners: map<int, Task>, procs: seq<GpuProcess>) returns (b: Buckets)
    ensures Sorted(owners, procs, b)
  {
    var tasks: map<int, seq<TaskAllocation>> := map[];
    var users: map<int, seq<UserProcess>> := map[];
    var unknowns: map<int, seq<UnknownProcess>> := map[];
    var observed: set<(TaskId, int)> := {};
    for n := 0 to |procs|
      invariant Sorted(owners, procs[..n], Buckets(tasks, users, unknowns, observed))
    {
      var proc := procs[n];
      SortInCorrect(owners, procs[..n], Buckets(tasks, users, unknowns, observed), proc);
      assert procs[..n + 1] == procs[..n] + [proc];
      if proc.pid in owners {
        var task := owners[proc.pid];
        tasks := Appended(tasks, proc.gpuIndex, AllocationOf(task, proc.gpuIndex, proc.usedMb, Some(proc.pid)));
        observed := observed + {(task.id, proc.gpuIndex)};
      } else if proc.owner.Some? {
        users := Appended(users, proc.gpuIndex, UserProcess(proc.pid, proc.owner.value, proc.gpuIndex, proc.usedMb));
      } else {
        unknowns := Appended(unknowns, proc.gpuIndex, UnknownProcess(proc.pid, proc.gpuIndex, proc.usedMb));
      }
    }
    assert procs[..|procs|] == procs;
    b := Buckets(tasks, users, unknowns, observed);
  }

  method AttributeGpuProcesses(procs: seq<GpuProcess>, tasks: seq<Task>, node: NodeReadings)
    returns (perGpu: Sample)
    ensures perGpu == Attributed(procs, tasks, node)
  {
    var owners := BuildPidOwners(tasks);
    var b := SortProcesses(owners, procs);
    var allocations := KeepReservationsVisible(tasks, b.tasks, b.observed);
    forall g
      ensures BucketsAt(owners, procs, tasks, allocations, b.users, b.unknowns, g)
    {
      assert VisibleOn(b.tasks, b.observed, Claims(tasks), allocations, g) && SortedAt(owners, procs, b, g);
    }
    perGpu := Summarise(owners, procs, tasks, node, allocations, b.users, b.unknowns);
    assert forall i :: 0 <= i < |perGpu| ==>
      IsSummary(owners, procs, tasks, node, SortedInts(GpuIndices(procs, node))[i], perGpu[i]);
  }

  ghost predicate VisibleOn(before: map<int, seq<TaskAllocation>>, seen: set<(TaskId, int)>, claims: seq<(Task, int)>,
    allocations: map<int, seq<TaskAllocation>>, g: int)
  {
    Bucket(allocations, g) == Bucket(before, g) + SilentAllocations(seen, claims, g)
  }

  ghost predicate Visible(before: map<int, seq<TaskAllocation>>, seen: set<(TaskId, int)>, claims: seq<(Task, int)>,
    allocations: map<int, seq<TaskAllocation>>, observed: set<(TaskId, int)>)
  {
    observed == seen + PairIds(claims) && forall g :: VisibleOn(before, seen, claims, allocations, g)
  }

  function MadeVisible(allocations: map<int, seq<TaskAllocation>>, observed: set<(TaskId, int)>, task: Task, gpu: int):
    map<int, seq<TaskAllocation>>
  {
    if (task.id, gpu) in observed then allocations
    else Appended(allocations, gpu, AllocationOf(task, gpu, 0.0, task.pid))
  }

  lemma {:induction false} VisibleAt(before: seq<TaskAllocation>, seen: set<(TaskId, int)>, claims: seq<(Task, int)>,
      allocations: map<int, seq<TaskAllocation>>, observed: set<(TaskId, int)>, task: Task, gpu: int, g: int)
    requires observed == seen + PairIds(claims)
    requires Bucket(allocations, g) == before + SilentAllocations(seen, claims, g)
    ensures Bucket(MadeVisible(allocations, observed, task, gpu), g)
      == before + SilentAllocations(seen, claims + [(task, gpu)], g)
  {
  }

  lemma {:induction false} VisibleStep(before: map<int, seq<TaskAllocation>>, seen: set<(TaskId, int)>,
        claims: seq<(Task, int)>,
      allocations: map<int, seq<TaskAllocation>>, observed: set<(TaskId, int)>, task: Task, gpu: int)
    requires Visible(before, seen, claims, allocations, observed)
    ensures Visible(before, seen, claims + [(task, gpu)],
                    MadeVisible(allocations, observed, task, gpu), observed + {(task.id, gpu)})
  {
    PairIdsSnoc(claims, task, gpu);
    forall g
      ensures VisibleOn(before, seen, claims + [(task, gpu)], MadeVisible(allocations, observed, task, gpu), g)
    {
      assert VisibleOn(before, seen, claims, allocations, g);
      VisibleAt(Bucket(before, g), seen, claims, allocations, observed, task, gpu, g);
    }
  }

  /** The inner loop, for one task: `claims` is what earlier tasks claimed. */
  method KeepTaskVisible(task: Task, ghost before: map<int, seq<TaskAllocation>>, ghost seen: set<(TaskId, int)>,
      ghost claims: seq<(Task, int)>, allocations0: map<int, seq<TaskAllocation>>, observed0: set<(TaskId, int)>)
    returns (allocations: map<int, seq<TaskAllocation>>, observed: set<(TaskId, int)>)
    requires Visible(before, seen, claims, allocations0, observed0)
    ensures Visible(before, seen, claims + PairsOf(task, task.assignedGpus.GetOr([])), allocations, observed)
  {
    allocations, observed := allocations0, observed0;
    var gpus := task.assignedGpus.GetOr([]);
    assert claims + PairsOf(task, gpus)[..0] == claims;
    for k := 0 to |gpus|
      invariant Visible(before, seen, claims + PairsOf(task, gpus)[..k], allocations, observed)
    {
      VisibleStep(before, seen, claims + PairsOf(task, gpus)[..k], allocations, observed, task, gpus[k]);
      if (task.id, gpus[k]) !in observed {
        allocations := Appended(allocations, gpus[k], AllocationOf(task, gpus[k], 0.0, task.pid));
      }
      observed := observed + {(task.id, gpus[k])};
      assert claims + PairsOf(task, gpus)[..k + 1] == claims + PairsOf(task, gpus)[..k] + [(task, gpus[k])];
    }
    assert PairsOf(task, gpus)[..|gpus|] == PairsOf(task, gpus);
  }

  method KeepReservationsVisible(tasks: seq<Task>, before: map<int, seq<TaskAllocation>>, seen: set<(TaskId, int)>)
    returns (allocations: map<int, seq<TaskAllocation>>)
    ensures forall g :: VisibleOn(before, seen, Claims(tasks), allocations, g)
  {
    allocations := before;
    var observed := seen;
    assert PairIds([]) == {};
    for n := 0 to |tasks|
      invariant Visible(before, seen, Claims(tasks[..n]), allocations, observed)
    {
      allocations, observed := KeepTaskVisible(tasks[n], before, seen, Claims(tasks[..n]), allocations, observed);
      assert Init(tasks[..n + 1]) == tasks[..n] && Last(tasks[..n + 1]) == tasks[n];
    }
    assert tasks[..|tasks|] == tasks;
  }

  lemma {:induction false} PairIdsSnoc(pairs: seq<(Task, int)>, t: Task, g: int)
    ensures PairIds(pairs + [(t, g)]) == PairIds(pairs) + {(t.id, g)}
  {
    var next := pairs + [(t, g)];
    forall x
      ensures x in PairIds(next) <==> x in PairIds(pairs) + {(t.id, g)}
    {
      if x in PairIds(pairs) {
        var i :| 0 <= i < |pairs| && x == (pairs[i].0.id, pairs[i].1);
        assert next[i] == pairs[i];
      }
      assert next[|pairs|] == (t, g);
    }
  }

  method AllIndices(procs: seq<GpuProcess>, node: NodeReadings) returns (all: set<int>)
    ensures all == GpuIndices(procs, node)
  {
    all := node.memory.Keys;
    if node.used.Some? {
      all := all + node.used.value.Keys;
    }
    ghost var cards := all;
    for n := 0 to |procs|
      invariant all == cards + set p | p in procs[..n] :: p.gpuIndex
    {
      assert procs[..n + 1] == procs[..n] + [procs[n]];
      all := all + {procs[n].gpuIndex};
    }
    assert procs[..|procs|] == procs;
  }

  method SummariseGpu(g: int, node: NodeReadings, allocations: seq<TaskAllocation>, users: seq<UserProcess>,
      unknowns: seq<UnknownProcess>)
    returns (summary: GpuSummary)
    ensures summary == SummaryFrom(g, node, allocations, users, unknowns)
  {
    var attributed := TaskMb(allocations) + UserMb(users) + UnknownMb(unknowns);
    var actual := attributed;
    if node.used.Some? {
      actual := MaxReal(attributed, MapGet(node.used.value, g));
    }
    var utilization := if node.utilization.Some? then MapGet(node.utilization.value, g) else 0.0;
    summary := GpuSummary(g, MapGet(node.memory, g), actual, allocations, users, unknowns, utilization);
  }

  ghost predicate BucketsAt(owners: map<int, Task>, procs: seq<GpuProcess>, tasks: seq<Task>,
    allocations: map<int, seq<TaskAllocation>>, users: map<int, seq<UserProcess>>,
    unknowns: map<int, seq<UnknownProcess>>, g: int)
  {
    && Bucket(allocations, g) == AllocationsOn(owners, procs, tasks, g)
    && Bucket(users, g) == UsersOn(owners, procs, g)
    && Bucket(unknowns, g) == UnknownsOn(owners, procs, g)
  }

  ghost predicate IsSummary(owners: map<int, Task>, procs: seq<GpuProcess>, tasks: seq<Task>, node: NodeReadings,
        g: int, s: GpuSummary) {
    s == SummaryOf(owners, procs, tasks, node, g)
  }

  method Summarise(ghost owners: map<int, Task>, procs: seq<GpuProcess>, ghost tasks: seq<Task>, node: NodeReadings,
      allocations: map<int, seq<TaskAllocation>>, users: map<int, seq<UserProcess>>,
      unknowns: map<int, seq<UnknownProcess>>)
    returns (perGpu: Sample)
    requires forall g :: BucketsAt(owners, procs, tasks, allocations, users, unknowns, g)
    ensures |perGpu| == |SortedInts(GpuIndices(procs, node))|
    ensures forall i :: 0 <= i < |perGpu| ==>
      IsSummary(owners, procs, tasks, node, SortedInts(GpuIndices(procs, node))[i], perGpu[i])
  {
    var all := AllIndices(procs, node);
    var indices := SortedInts(all);
    perGpu := [];
    for n := 0 to |indices|
      invariant |perGpu| == n
      invariant forall i :: 0 <= i < n ==> IsSummary(owners, procs, tasks, node, indices[i], perGpu[i])
    {
      var g := indices[n];
      var summary := SummariseGpu(g, node, Bucket(allocations, g), Bucket(users, g), Bucket(unknowns, g));
      SummaryFromBuckets(owners, procs, tasks, node, allocations, users, unknowns, g);
      perGpu := perGpu + [summary];
    }
  }

  lemma {:induction false} SummaryFromBuckets(owners: map<int, Task>, procs: seq<GpuProcess>, tasks: seq<Task>,
        node: NodeReadings,
      allocations: map<int, seq<TaskAllocation>>, users: map<int, seq<UserProcess>>,
      unknowns: map<int, seq<UnknownProcess>>, g: int)
    requires forall g :: BucketsAt(owners, procs, tasks, allocations, users, unknowns, g)
    ensures IsSummary(owners, procs, tasks, node, g,
                      SummaryFrom(g, node, Bucket(allocations, g), Bucket(users, g), Bucket(unknowns, g)))
  {
    assert BucketsAt(owners, procs, tasks, allocations, users, unknowns, g);
  }
}
