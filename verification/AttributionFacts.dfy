/** Attribution conserves memory and hides nothing. */
module AttributionFacts {
  import opened Basics
  import opened Models
  import opened Attribution

  ghost predicate DistinctIds(tasks: seq<Task>) {
    forall i, j :: 0 <= i < j < |tasks| ==> tasks[i].id != tasks[j].id
  }

  /** `gpu` lists `t` with the reservation and the exclusivity that `t` has there. */
  ghost predicate Shows(gpu: GpuSummary, t: Task) {
    exists k :: 0 <= k < |gpu.pmeowTasks| && ShowsAt(gpu, t, k)
  }

  ghost predicate ShowsAt(gpu: GpuSummary, t: Task, k: int)
    requires 0 <= k < |gpu.pmeowTasks|
  {
    && gpu.pmeowTasks[k].taskId == t.id
    && gpu.pmeowTasks[k].declaredMb == Declared(t, gpu.gpuIndex)
    && gpu.pmeowTasks[k].exclusiveActive == ExclusiveActive(t, gpu.gpuIndex)
  }

  /** `a` is the entry, on GPU `g`, of the task called `id` in `tasks`. */
  ghost predicate EntryOf(a: TaskAllocation, tasks: seq<Task>, id: TaskId, g: int) {
    a.taskId == id && exists t :: t in tasks && t.id == id && a.declaredMb == Declared(t, g) && a.exclusiveActive == ExclusiveActive(t, g)
  }

  lemma {:induction false} ObservedHasEntry(owners: map<int, Task>, tasks: seq<Task>, procs: seq<GpuProcess>,
        id: TaskId, g: int)
    returns (k: nat)
    requires forall pid :: pid in owners ==> owners[pid] in tasks
    requires (id, g) in Observed(owners, procs)
    ensures k < |ProcessAllocations(owners, procs, g)| && EntryOf(ProcessAllocations(owners, procs, g)[k], tasks, id, g)
    decreases |procs|
  {
    var p := Last(procs);
    if p.pid in owners && owners[p.pid].id == id && p.gpuIndex == g {
      k := |ProcessAllocations(owners, Init(procs), g)|;
      assert owners[p.pid] in tasks;
    } else {
      k := ObservedHasEntry(owners, tasks, Init(procs), id, g);
    }
  }

  lemma {:induction false} SilentHasEntry(seen: set<(TaskId, int)>, tasks: seq<Task>, pairs: seq<(Task, int)>,
        id: TaskId, g: int)
    returns (k: nat)
    requires forall i :: 0 <= i < |pairs| ==> pairs[i].0 in tasks
    requires (id, g) in PairIds(pairs) && (id, g) !in seen
    ensures k < |SilentAllocations(seen, pairs, g)| && EntryOf(SilentAllocations(seen, pairs, g)[k], tasks, id, g)
    decreases |pairs|
  {
    var (t, gpu) := Last(pairs);
    if (id, g) in PairIds(Init(pairs)) {
      k := SilentHasEntry(seen, tasks, Init(pairs), id, g);
    } else {
      assert pairs == Init(pairs) + [(t, gpu)];
      PairIdsSnoc(Init(pairs), t, gpu);
      k := |SilentAllocations(seen, Init(pairs), g)|;
    }
  }

  lemma {:induction false} ClaimListed(tasks: seq<Task>, n: nat, g: int)
    requires n < |tasks| && AssignedTo(tasks[n], g)
    ensures (tasks[n].id, g) in PairIds(Claims(tasks))
    decreases |tasks|
  {
    var rest := Claims(Init(tasks));
    var mine := PairsOf(Last(tasks), Last(tasks).assignedGpus.GetOr([]));
    if n == |tasks| - 1 {
      var gpus := tasks[n].assignedGpus.value;
      var i :| 0 <= i < |gpus| && gpus[i] == g;
      assert Claims(tasks)[|rest| + i] == (tasks[n], g);
    } else {
      ClaimListed(Init(tasks), n, g);
      var i :| 0 <= i < |rest| && (tasks[n].id, g) == (rest[i].0.id, rest[i].1);
      assert Claims(tasks)[i] == rest[i];
    }
  }

  lemma {:induction false} ClaimsFromTasks(tasks: seq<Task>)
    ensures forall i :: 0 <= i < |Claims(tasks)| ==> Claims(tasks)[i].0 in tasks
    decreases |tasks|
  {
    if tasks != [] {
      ClaimsFromTasks(Init(tasks));
      assert tasks == Init(tasks) + [Last(tasks)];
    }
  }

  /** A live task is listed, with its reservation, on every GPU assigned to it that the sample contains,
      whether or not it has a process there. */
  lemma {:induction false} ReservationVisible(procs: seq<GpuProcess>, tasks: seq<Task>, node: NodeReadings, n: nat,
        i: nat)
    requires DistinctIds(tasks) && n < |tasks| && i < |Attributed(procs, tasks, node)|
    requires AssignedTo(tasks[n], Attributed(procs, tasks, node)[i].gpuIndex)
    ensures Shows(Attributed(procs, tasks, node)[i], tasks[n])
  {
    var gpu := Attributed(procs, tasks, node)[i];
    var g := gpu.gpuIndex;
    var owners := PidOwners(tasks);
    var byProcess := ProcessAllocations(owners, procs, g);
    var silent := SilentAllocations(Observed(owners, procs), Claims(tasks), g);
    assert gpu.pmeowTasks == byProcess + silent;
    var k: nat;
    if (tasks[n].id, g) in Observed(owners, procs) {
      k := ObservedHasEntry(owners, tasks, procs, tasks[n].id, g);
      assert gpu.pmeowTasks[k] == byProcess[k];
    } else {
      ClaimListed(tasks, n, g);
      ClaimsFromTasks(tasks);
      k := SilentHasEntry(Observed(owners, procs), tasks, Claims(tasks), tasks[n].id, g);
      assert gpu.pmeowTasks[|byProcess| + k] == silent[k];
      k := |byProcess| + k;
    }
    var t :| t in tasks && t.id == tasks[n].id && gpu.pmeowTasks[k].declaredMb == Declared(t, g)
             && gpu.pmeowTasks[k].exclusiveActive == ExclusiveActive(t, g);
    var m :| 0 <= m < |tasks| && tasks[m] == t;
    assert m == n;
    assert ShowsAt(gpu, tasks[n], k);
  }

  /** The GPUs of a sample are listed in strictly increasing order, each card with its own total. */
  lemma {:induction false} SampleIndices(procs: seq<GpuProcess>, tasks: seq<Task>, node: NodeReadings)
    ensures var r := Attributed(procs, tasks, node);
      && DistinctGpus(r)
      && (forall i, j :: 0 <= i < j < |r| ==> r[i].gpuIndex < r[j].gpuIndex)
      && (forall i :: 0 <= i < |r| ==> r[i].totalMb == MapGet(node.memory, r[i].gpuIndex))
      && (forall g :: g in GpuIndices(procs, node) <==> exists i :: 0 <= i < |r| && r[i].gpuIndex == g)
  {
    var r := Attributed(procs, tasks, node);
    var indices := SortedInts(GpuIndices(procs, node));
    assert forall i :: 0 <= i < |r| ==> r[i].gpuIndex == indices[i];
    forall g | g in GpuIndices(procs, node)
      ensures exists i :: 0 <= i < |r| && r[i].gpuIndex == g
    {
      assert g in indices;
      var i :| 0 <= i < |indices| && indices[i] == g;
      assert r[i].gpuIndex == g;
    }
  }

  // ---------------------------------------------------------------------------
  // Conservation
  // ---------------------------------------------------------------------------

  /** A use of GPU memory: who and how much. */
  type Use = (int, real)

  function ProcessUses(procs: seq<GpuProcess>, g: int): multiset<Use> {
    if procs == [] then multiset{}
    else
      var p := Last(procs);
      ProcessUses(Init(procs), g) + (if p.gpuIndex == g then multiset{(p.pid, p.usedMb)} else multiset{})
  }

  function TaskUses(s: seq<TaskAllocation>): multiset<Use> {
    if s == [] then multiset{} else TaskUses(Init(s)) + multiset{(Last(s).pid.GetOr(0), Last(s).actualMb)}
  }

  function UserUses(s: seq<UserProcess>): multiset<Use> {
    if s == [] then multiset{} else UserUses(Init(s)) + multiset{(Last(s).pid, Last(s).usedMb)}
  }

  function UnknownUses(s: seq<UnknownProcess>): multiset<Use> {
    if s == [] then multiset{} else UnknownUses(Init(s)) + multiset{(Last(s).pid, Last(s).usedMb)}
  }

  lemma {:induction false} TaskSnoc(s: seq<TaskAllocation>, x: TaskAllocation)
    ensures TaskUses(s + [x]) == TaskUses(s) + multiset{(x.pid.GetOr(0), x.actualMb)}
    ensures TaskMb(s + [x]) == TaskMb(s) + x.actualMb
  {
  }

  /** What process `p` adds to a bucket that takes it only if `here`. */
  function UseIf(here: bool, p: GpuProcess): multiset<Use> {
    if here then multiset{(p.pid, p.usedMb)} else multiset{}
  }

  function MbIf(here: bool, p: GpuProcess): real {
    if here then p.usedMb else 0.0
  }

  lemma {:induction false} TaskBucketStep(owners: map<int, Task>, procs: seq<GpuProcess>, g: int)
    requires procs != []
    ensures var p := Last(procs); var here := p.gpuIndex == g && p.pid in owners;
      var was, now := ProcessAllocations(owners, Init(procs), g), ProcessAllocations(owners, procs, g);
      TaskUses(now) == TaskUses(was) + UseIf(here, p) && TaskMb(now) == TaskMb(was) + MbIf(here, p)
  {
  }

  lemma {:induction false} UserBucketStep(owners: map<int, Task>, procs: seq<GpuProcess>, g: int)
    requires procs != []
    ensures var p := Last(procs); var here := p.gpuIndex == g && p.pid !in owners && p.owner.Some?;
      var was, now := UsersOn(owners, Init(procs), g), UsersOn(owners, procs, g);
      UserUses(now) == UserUses(was) + UseIf(here, p) && UserMb(now) == UserMb(was) + MbIf(here, p)
  {
  }

  lemma {:induction false} UnknownBucketStep(owners: map<int, Task>, procs: seq<GpuProcess>, g: int)
    requires procs != []
    ensures var p := Last(procs); var here := p.gpuIndex == g && p.pid !in owners && p.owner.None?;
      var was, now := UnknownsOn(owners, Init(procs), g), UnknownsOn(owners, procs, g);
      UnknownUses(now) == UnknownUses(was) + UseIf(here, p) && UnknownMb(now) == UnknownMb(was) + MbIf(here, p)
  {
  }

  /** The uses and the memory in the three buckets of GPU `g`. */
  function BucketUses(owners: map<int, Task>, procs: seq<GpuProcess>, g: int): multiset<Use> {
    TaskUses(ProcessAllocations(owners, procs, g)) + UserUses(UsersOn(owners, procs, g))
    + UnknownUses(UnknownsOn(owners, procs, g))
  }

  function BucketMb(owners: map<int, Task>, procs: seq<GpuProcess>, g: int): real {
    TaskMb(ProcessAllocations(owners, procs, g)) + UserMb(UsersOn(owners, procs, g))
    + UnknownMb(UnknownsOn(owners, procs, g))
  }

  lemma {:induction false} BucketStep(owners: map<int, Task>, procs: seq<GpuProcess>, g: int)
    requires procs != []
    ensures BucketUses(owners, procs, g)
      == BucketUses(owners, Init(procs), g) + UseIf(Last(procs).gpuIndex == g, Last(procs))
    ensures BucketMb(owners, procs, g) == BucketMb(owners, Init(procs), g) + MbIf(Last(procs).gpuIndex == g, Last(procs))
  {
    TaskBucketStep(owners, procs, g);
    UserBucketStep(owners, procs, g);
    UnknownBucketStep(owners, procs, g);
    var p := Last(procs);
    var own, named := p.pid in owners, p.owner.Some?;
    var here := p.gpuIndex == g;
    ExactlyOne(here, own, named, p);
    Shuffle(TaskUses(ProcessAllocations(owners, Init(procs), g)), UserUses(UsersOn(owners, Init(procs), g)),
            UnknownUses(UnknownsOn(owners, Init(procs), g)),
            UseIf(here && own, p), UseIf(here && !own && named, p), UseIf(here && !own && !named, p));
  }

  lemma {:induction false} ExactlyOne(here: bool, own: bool, named: bool, p: GpuProcess)
    ensures UseIf(here && own, p) + UseIf(here && !own && named, p) + UseIf(here && !own && !named, p) == UseIf(here, p)
    ensures MbIf(here && own, p) + MbIf(here && !own && named, p) + MbIf(here && !own && !named, p) == MbIf(here, p)
  {
  }

  lemma {:induction false} Shuffle(a: multiset<Use>, b: multiset<Use>, c: multiset<Use>, x: multiset<Use>,
        y: multiset<Use>, z: multiset<Use>)
    ensures (a + x) + (b + y) + (c + z) == (a + b + c) + (x + y + z)
  {
  }

  /** Every process is in exactly one of the three buckets of its own GPU, with its own pid and memory, and
      the buckets hold nothing else; so they hold exactly the memory of the GPU's processes. */
  lemma {:induction false} EachProcessOnce(owners: map<int, Task>, procs: seq<GpuProcess>, g: int)
    ensures BucketUses(owners, procs, g) == ProcessUses(procs, g)
    ensures BucketMb(owners, procs, g) == ProcessMbOn(procs, g)
    decreases |procs|
  {
    if procs != [] {
      EachProcessOnce(owners, Init(procs), g);
      BucketStep(owners, procs, g);
    }
  }

  function ProcessMb(procs: seq<GpuProcess>): real {
    if procs == [] then 0.0 else ProcessMb(Init(procs)) + Last(procs).usedMb
  }

  function ProcessMbOn(procs: seq<GpuProcess>, g: int): real {
    if procs == [] then 0.0
    else ProcessMbOn(Init(procs), g) + (if Last(procs).gpuIndex == g then Last(procs).usedMb else 0.0)
  }

  lemma {:induction false} TaskMbConcat(a: seq<TaskAllocation>, b: seq<TaskAllocation>)
    ensures TaskMb(a + b) == TaskMb(a) + TaskMb(b)
    decreases |b|
  {
    if b == [] {
      assert a + b == a;
    } else {
      assert Init(a + b) == a + Init(b);
      TaskMbConcat(a, Init(b));
    }
  }

  lemma {:induction false} SilentUseNothing(seen: set<(TaskId, int)>, pairs: seq<(Task, int)>, g: int)
    ensures TaskMb(SilentAllocations(seen, pairs, g)) == 0.0
    decreases |pairs|
  {
    if pairs != [] {
      SilentUseNothing(seen, Init(pairs), g);
      var (t, gpu) := Last(pairs);
      TaskSnoc(SilentAllocations(seen, Init(pairs), g), AllocationOf(t, g, 0.0, t.pid));
    }
  }

  lemma {:induction false} AttributedOnGpu(procs: seq<GpuProcess>, tasks: seq<Task>, node: NodeReadings, i: nat)
    requires i < |Attributed(procs, tasks, node)|
    ensures AttributedMb(Attributed(procs, tasks, node)[i]) == ProcessMbOn(procs, Attributed(procs, tasks, node)[i].gpuIndex)
  {
    var gpu := Attributed(procs, tasks, node)[i];
    var owners := PidOwners(tasks);
    var silent := SilentAllocations(Observed(owners, procs), Claims(tasks), gpu.gpuIndex);
    TaskMbConcat(ProcessAllocations(owners, procs, gpu.gpuIndex), silent);
    SilentUseNothing(Observed(owners, procs), Claims(tasks), gpu.gpuIndex);
    EachProcessOnce(owners, procs, gpu.gpuIndex);
  }

  function TotalAttributedMb(sample: Sample): real {
    if sample == [] then 0.0 else TotalAttributedMb(Init(sample)) + AttributedMb(Last(sample))
  }

  function SumOn(procs: seq<GpuProcess>, indices: seq<int>): real {
    if indices == [] then 0.0 else SumOn(procs, Init(indices)) + ProcessMbOn(procs, Last(indices))
  }

  lemma {:induction false} SumOnSnoc(procs: seq<GpuProcess>, indices: seq<int>)
    requires procs != []
    requires forall i, j :: 0 <= i < j < |indices| ==> indices[i] != indices[j]
    ensures SumOn(procs, indices)
         == SumOn(Init(procs), indices) + (if Last(procs).gpuIndex in indices then Last(procs).usedMb else 0.0)
    decreases |indices|
  {
    if indices != [] {
      SumOnSnoc(procs, Init(indices));
      assert indices == Init(indices) + [Last(indices)];
    }
  }

  lemma {:induction false} SumOnAll(procs: seq<GpuProcess>, indices: seq<int>)
    requires forall i, j :: 0 <= i < j < |indices| ==> indices[i] != indices[j]
    requires forall p :: p in procs ==> p.gpuIndex in indices
    ensures SumOn(procs, indices) == ProcessMb(procs)
    decreases |procs|
  {
    if procs == [] {
      SumOnNothing(indices);
    } else {
      assert procs == Init(procs) + [Last(procs)];
      SumOnAll(Init(procs), indices);
      SumOnSnoc(procs, indices);
    }
  }

  lemma {:induction false} SumOnNothing(indices: seq<int>)
    ensures SumOn([], indices) == 0.0
    decreases |indices|
  {
    if indices != [] {
      SumOnNothing(Init(indices));
    }
  }

  lemma {:induction false} TotalIsSumOn(procs: seq<GpuProcess>, sample: Sample, indices: seq<int>)
    requires |sample| == |indices|
    requires forall i :: 0 <= i < |sample| ==> AttributedMb(sample[i]) == ProcessMbOn(procs, indices[i])
    ensures TotalAttributedMb(sample) == SumOn(procs, indices)
    decreases |sample|
  {
    if sample != [] {
      TotalIsSumOn(procs, Init(sample), Init(indices));
    }
  }

  /** Attributed memory over all GPUs is exactly the memory of the processes. */
  lemma {:induction false} AttributionConserves(procs: seq<GpuProcess>, tasks: seq<Task>, node: NodeReadings)
    ensures TotalAttributedMb(Attributed(procs, tasks, node)) == ProcessMb(procs)
  {
    var r := Attributed(procs, tasks, node);
    var indices := SortedInts(GpuIndices(procs, node));
    forall i | 0 <= i < |r|
      ensures AttributedMb(r[i]) == ProcessMbOn(procs, indices[i])
    {
      AttributedOnGpu(procs, tasks, node, i);
    }
    TotalIsSumOn(procs, r, indices);
    SumOnAll(procs, indices);
  }
}
